/**
 * The generation service (flashcards/core/services/flashcard_generation.py):
 * it records one AIGenerationSession per request, asks the LLM for 5-10
 * proposals through a fixed prompt template, keeps only the proposals whose
 * trimmed texts fit the flashcard bounds, and writes either the kept count or
 * the failure into the session.
 */
module FlashcardGeneration {
  import opened Wrappers
  import opened Models
  import Text
  import Store
  import LlmService

  /** Bounds on the number of proposals in the LLM's response schema. */
  const MinSchemaCards: nat := 5
  const MaxSchemaCards: nat := 10

  /** What every failed attempt reports. */
  const FailureCode: string := "ai_generation_failed"
  const FailureUserMessage: string := "Couldn't generate flashcards right now. Please try again."
  /** Prefix of the error that wraps an LLM failure. */
  const LlmFailurePrefix: string := "Failed to generate flashcards with LLM: "

  /** `GenerateFlashcardsCommand.model_name`'s default. */
  const DefaultModelName: string := "gemini-2.0-flash-001"
  /** Parameters of the client the service builds for itself. */
  const DefaultTemperature: real := 0.7
  const DefaultMaxOutputTokens: int := 2048
  const SystemInstruction: string :=
    "You are an expert educational content creator specializing in creating effective flashcards for learning.\n\n"
    + "Your task is to analyze the provided text and generate 5-10 high-quality flashcards that help students learn the key concepts.\n\n"
    + "Guidelines:\n"
    + "- Create clear, concise questions that test understanding of important concepts\n"
    + "- Provide complete, accurate answers with sufficient context\n"
    + "- Focus on fundamental concepts, definitions, facts, and relationships\n"
    + "- Avoid overly complex or ambiguous questions\n"
    + "- Each flashcard should be self-contained and understandable\n"
    + "- Use simple, direct language appropriate for the subject matter\n"
    + "- Ensure questions have definitive, factual answers"

  /** A proposal as a dictionary whose "front" and "back" keys may be missing. */
  datatype RawCard = RawCard(front: Option<string>, back: Option<string>)

  /** A front/back pair. */
  datatype Card = Card(front: string, back: string)

  /** What `_validate_flashcards` lets through: trimmed, non-empty texts within
      200 and 500 characters. */
  predicate ValidCard(c: Card) {
    && FrontInBounds(c.front) && BackInBounds(c.back)
    && Text.IsStripped(c.front) && Text.IsStripped(c.back)
  }

  // ---------------------------------------------------------------------------
  // Response schema

  /** `FlashcardGenerationResponse.model_validate`: 5 to 10 cards, each with
      both fields, a front of at most 200 and a back of at most 500 characters
      (no trimming, no lower bound). The error text stands in for the schema
      library's. */
  function ValidateResponseSchema(payload: seq<RawCard>): (r: Result<seq<Card>, string>)
    ensures r.Success? <==>
      && MinSchemaCards <= |payload| <= MaxSchemaCards
      && forall i :: 0 <= i < |payload| ==> SchemaCardOk(payload[i])
    ensures r.Success? ==>
      && |r.value| == |payload|
      && forall i :: 0 <= i < |payload| ==> r.value[i] == Card(payload[i].front.value, payload[i].back.value)
  {
    if !(MinSchemaCards <= |payload| <= MaxSchemaCards) then
      Failure("flashcards: list should have 5 to 10 items")
    else if exists i :: 0 <= i < |payload| && !SchemaCardOk(payload[i]) then
      Failure("flashcards: a card is missing a field or is too long")
    else
      Success(seq(|payload|, i requires 0 <= i < |payload| => Card(payload[i].front.value, payload[i].back.value)))
  }

  /** One card of the response schema. */
  predicate SchemaCardOk(c: RawCard) {
    && c.front.Some? && |c.front.value| <= MaxFrontLength
    && c.back.Some? && |c.back.value| <= MaxBackLength
  }

  /** The dictionaries built from the schema's cards: both keys always present. */
  function AsDictionaries(cards: seq<Card>): (r: seq<RawCard>)
    ensures |r| == |cards|
    ensures forall i :: 0 <= i < |r| ==> r[i] == RawCard(Some(cards[i].front), Some(cards[i].back))
  {
    seq(|cards|, i requires 0 <= i < |cards| => RawCard(Some(cards[i].front), Some(cards[i].back)))
  }

  // ---------------------------------------------------------------------------
  // Proposal filtering

  /** One iteration of `_validate_flashcards`: the trimmed card, or None when a
      key is missing or a trimmed text is empty or too long. */
  function Keep(raw: RawCard): (r: Option<Card>)
    ensures r.Some? <==>
      && raw.front.Some? && raw.back.Some?
      && FrontInBounds(Text.Strip(raw.front.value)) && BackInBounds(Text.Strip(raw.back.value))
    ensures r.Some? ==> r.value == Card(Text.Strip(raw.front.value), Text.Strip(raw.back.value)) && ValidCard(r.value)
  {
    if raw.front.None? || raw.back.None? then None
    else
      var front := Text.Strip(raw.front.value);
      var back := Text.Strip(raw.back.value);
      Text.StripIsTrimmedSlice(raw.front.value);
      Text.StripIsTrimmedSlice(raw.back.value);
      if front == "" || |front| > MaxFrontLength then None
      else if back == "" || |back| > MaxBackLength then None
      else Some(Card(front, back))
  }

  /** The specification of `_validate_flashcards`: the kept cards, in input order. */
  function ValidatedCards(raws: seq<RawCard>): (r: seq<Card>)
    ensures |r| <= |raws|
    ensures forall k :: 0 <= k < |r| ==> ValidCard(r[k])
  {
    if raws == [] then []
    else
      var last := raws[|raws| - 1];
      ValidatedCards(raws[..|raws| - 1]) + (if Keep(last).Some? then [Keep(last).value] else [])
  }

  /** The positions of `xs` whose element satisfies `p`, in increasing order. */
  function Positions<T>(xs: seq<T>, p: T -> bool): (ix: seq<nat>)
    ensures forall k :: 0 <= k < |ix| ==> ix[k] < |xs| && p(xs[ix[k]])
    ensures forall k, l :: 0 <= k < l < |ix| ==> ix[k] < ix[l]
    ensures forall i :: 0 <= i < |xs| && p(xs[i]) ==> i in ix
  {
    if xs == [] then []
    else
      var init := xs[..|xs| - 1];
      var prev := Positions(init, p);
      assert forall i :: 0 <= i < |init| ==> init[i] == xs[i];
      if p(xs[|init|]) then prev + [|init|] else prev
  }

  /** The positions of the kept input cards, in increasing order. */
  function KeptPositions(raws: seq<RawCard>): (ix: seq<nat>)
    ensures forall k :: 0 <= k < |ix| ==> ix[k] < |raws| && Keep(raws[ix[k]]).Some?
    ensures forall k, l :: 0 <= k < l < |ix| ==> ix[k] < ix[l]
    ensures forall i :: 0 <= i < |raws| && Keep(raws[i]).Some? ==> i in ix
  {
    Positions(raws, raw => Keep(raw).Some?)
  }

  /** The output is an order-preserving subsequence of the trimmed input: its
      k-th card is the trimmed input card at the k-th kept position, and every
      input card that passes the checks is at a kept position. */
  lemma {:induction false} ValidatedCardsAreKeptInOrder(raws: seq<RawCard>)
    ensures |ValidatedCards(raws)| == |KeptPositions(raws)|
    ensures forall k :: 0 <= k < |ValidatedCards(raws)| ==>
              ValidatedCards(raws)[k] == Keep(raws[KeptPositions(raws)[k]]).value
  {
    if raws != [] {
      var init := raws[..|raws| - 1];
      ValidatedCardsAreKeptInOrder(init);
      forall k | 0 <= k < |KeptPositions(init)|
        ensures raws[KeptPositions(init)[k]] == init[KeptPositions(init)[k]]
      {
      }
    }
  }

  /** No card that passes the checks is dropped. */
  lemma NoValidCardIsDropped(raws: seq<RawCard>, i: nat)
    requires i < |raws| && Keep(raws[i]).Some?
    ensures Keep(raws[i]).value in ValidatedCards(raws)
  {
    ValidatedCardsAreKeptInOrder(raws);
    var ix := KeptPositions(raws);
    var k :| 0 <= k < |ix| && ix[k] == i;
    assert ValidatedCards(raws)[k] == Keep(raws[i]).value;
  }

  /** Cards whose front is blank are all dropped. */
  lemma {:induction false} BlankFrontsAreDropped(raws: seq<RawCard>)
    requires forall i :: 0 <= i < |raws| ==> raws[i].front.Some? && Text.IsBlank(raws[i].front.value)
    ensures ValidatedCards(raws) == []
  {
    if raws != [] {
      var last := raws[|raws| - 1];
      Text.StripEmptyIffBlank(last.front.value);
      BlankFrontsAreDropped(raws[..|raws| - 1]);
    }
  }

  /** `_validate_flashcards`: loop over the cards, strip, bound-check, append. */
  method ValidateFlashcards(raws: seq<RawCard>) returns (valid: seq<Card>)
    ensures valid == ValidatedCards(raws)
  {
    valid := [];
    var idx := 0;
    while idx < |raws|
      invariant 0 <= idx <= |raws|
      invariant valid == ValidatedCards(raws[..idx])
    {
      var card := raws[idx];
      assert raws[..idx + 1][..idx] == raws[..idx];
      if card.front.None? || card.back.None? {
        idx := idx + 1;
        continue;
      }
      var front := Text.Strip(card.front.value);
      var back := Text.Strip(card.back.value);
      if front == "" || |front| > MaxFrontLength {
        idx := idx + 1;
        continue;
      }
      if back == "" || |back| > MaxBackLength {
        idx := idx + 1;
        continue;
      }
      valid := valid + [Card(front, back)];
      idx := idx + 1;
    }
    assert raws[..|raws|] == raws;
  }

  // ---------------------------------------------------------------------------
  // Prompt

  // The first word is a literal of its own so that the verifier sees the
  // prompt's first character; it is one line of text in the template.
  const PromptHead: string := "Generate" + " educational flashcards from the following text:\n\n"
  const PromptTail: string :=
    "\n\nCreate 5-10 flashcards that cover the most important concepts, facts, and ideas from this text."

  /** The prompt wraps the input in fixed text, 155 characters in all. */
  function Prompt(inputText: string): (p: string)
    ensures |p| == |inputText| + |PromptHead| + |PromptTail|
    ensures p[|PromptHead|..|PromptHead| + |inputText|] == inputText
    ensures !Text.IsBlank(p)
  {
    var p := PromptHead + inputText + PromptTail;
    assert p[0] == PromptHead[0];
    p
  }

  /** Length added by the template. */
  lemma PromptOverhead()
    ensures |PromptHead| + |PromptTail| == 155
  {
  }

  // ---------------------------------------------------------------------------
  // The LLM call and the overall result

  /** `_generate_flashcards_with_llm` given the API's reply: build the default
      client when none was injected (which raises without an API key), then
      call it with the prompt; its errors are wrapped with a prefix. */
  function LlmCall(serviceReady: bool, settingsKey: string, inputText: string,
                   reply: LlmService.ApiReply<seq<RawCard>>): (r: Result<seq<RawCard>, string>)
    ensures r.Success? ==> forall i :: 0 <= i < |r.value| ==> r.value[i].front.Some? && r.value[i].back.Some?
    ensures r.Success? ==> MinSchemaCards <= |r.value| <= MaxSchemaCards
  {
    if !serviceReady && LlmService.CheckServiceParams(None, settingsKey, DefaultTemperature, DefaultMaxOutputTokens).Failure? then
      Failure(LlmService.MissingApiKeyMessage)
    else
      match LlmService.StructuredOutcome(Prompt(inputText), ValidateResponseSchema, reply)
      case Success(cards) => Success(AsDictionaries(cards))
      case Failure(e) => Failure(LlmFailurePrefix + LlmService.LlmErrorText(e))
  }

  /** The default client can only fail to build for want of an API key. */
  lemma DefaultClientNeedsOnlyAKey(settingsKey: string)
    ensures LlmService.CheckServiceParams(None, settingsKey, DefaultTemperature, DefaultMaxOutputTokens).Failure?
            <==> settingsKey == ""
  {
  }

  /** `GenerateFlashcardsCommand`. */
  datatype Command = Command(user: UserId, inputText: string, modelName: string)

  /** `GenerationResult`. */
  datatype GenerationResult = GenerationResult(
    sessionId: nat,
    generatedCount: nat,
    flashcards: seq<Card>,
    success: bool,
    errorCode: Option<string>,
    errorMessage: Option<string>,
    apiResponseTimeMs: Option<int>)

  /** The session row as created, before the LLM is called. */
  function InitialSession(cmd: Command): (s: Session)
    ensures s.generatedCount == 0 && s.errorCode == "" && s.apiResponseTimeMs.None?
  {
    Session(cmd.user, cmd.modelName, cmd.inputText, 0, "", "", None)
  }

  /** The session row after the attempt: the kept count and latency on success,
      the fixed error code and the raised error's text on failure. */
  function FinalSession(cmd: Command, outcome: Result<seq<RawCard>, string>, latencyMs: nat): (s: Session)
    ensures s.owner == cmd.user && s.inputText == cmd.inputText && s.model == cmd.modelName
    ensures outcome.Success? ==> s.generatedCount == |ValidatedCards(outcome.value)|
                                 && s.errorCode == "" && s.apiResponseTimeMs == Some(latencyMs as int)
    ensures outcome.Failure? ==> s.generatedCount == 0 && s.errorCode == FailureCode
                                 && s.errorMessage == outcome.error && s.apiResponseTimeMs.None?
    ensures |cmd.inputText| <= MaxInputLength ==> SessionInBounds(s)
  {
    match outcome
    case Success(raws) =>
      InitialSession(cmd).(generatedCount := |ValidatedCards(raws)|, apiResponseTimeMs := Some(latencyMs as int))
    case Failure(msg) =>
      InitialSession(cmd).(errorCode := FailureCode, errorMessage := msg)
  }

  /** The result returned to the caller. */
  function ResultFor(sessionId: nat, outcome: Result<seq<RawCard>, string>, latencyMs: nat): (r: GenerationResult)
    ensures r.sessionId == sessionId
    ensures r.success <==> outcome.Success?
    ensures r.success ==> r.generatedCount == |r.flashcards| && |r.flashcards| <= |outcome.value|
                          && r.flashcards == ValidatedCards(outcome.value)
                          && (forall k :: 0 <= k < |r.flashcards| ==> ValidCard(r.flashcards[k]))
                          && r.errorCode.None? && r.apiResponseTimeMs == Some(latencyMs as int)
    ensures !r.success ==> r.generatedCount == 0 && r.flashcards == []
                           && r.errorCode == Some(FailureCode) && r.errorMessage == Some(FailureUserMessage)
                           && r.apiResponseTimeMs.None?
  {
    match outcome
    case Success(raws) =>
      var valid := ValidatedCards(raws);
      GenerationResult(sessionId, |valid|, valid, true, None, None, Some(latencyMs as int))
    case Failure(_) =>
      GenerationResult(sessionId, 0, [], false, Some(FailureCode), Some(FailureUserMessage), None)
  }

  /** The session's count is the result's count on every path. */
  lemma SessionAgreesWithResult(sessionId: nat, cmd: Command, outcome: Result<seq<RawCard>, string>, latencyMs: nat)
    ensures FinalSession(cmd, outcome, latencyMs).generatedCount == ResultFor(sessionId, outcome, latencyMs).generatedCount
    ensures ResultFor(sessionId, outcome, latencyMs).success <==> FinalSession(cmd, outcome, latencyMs).errorCode == ""
  {
  }

  /** The prompt cap counts the template too: with the service's own client, an
      input longer than 9,845 characters always fails, however the API would
      have replied. In particular a 10,000-character input, which the request
      serializer admits, never yields proposals. */
  lemma NearLimitInputAlwaysFails(serviceReady: bool, settingsKey: string, inputText: string,
                                  reply: LlmService.ApiReply<seq<RawCard>>, sessionId: nat, latencyMs: nat)
    requires |inputText| > LlmService.MaxPromptLength - 155
    ensures LlmCall(serviceReady, settingsKey, inputText, reply).Failure?
    ensures !ResultFor(sessionId, LlmCall(serviceReady, settingsKey, inputText, reply), latencyMs).success
  {
    PromptOverhead();
    var p := Prompt(inputText);
    assert LlmService.ValidatePrompt(p) == Some(LlmService.PromptTooLong(|p|));
  }

  /** A reply whose cards are all blank still counts as a success, with nothing
      kept: filtering never turns an attempt into a failure. */
  lemma BlankRepliesSucceedEmpty(settingsKey: string, inputText: string, payload: seq<RawCard>,
                                 sessionId: nat, latencyMs: nat)
    requires settingsKey != "" && |inputText| <= LlmService.MaxPromptLength - 155
    requires MinSchemaCards <= |payload| <= MaxSchemaCards
    requires forall i :: 0 <= i < |payload| ==> SchemaCardOk(payload[i]) && Text.IsBlank(payload[i].front.value)
    ensures var r := ResultFor(sessionId, LlmCall(false, settingsKey, inputText, LlmService.Parsed(payload)), latencyMs);
            r.success && r.generatedCount == 0
  {
    PromptOverhead();
    var outcome := LlmCall(false, settingsKey, inputText, LlmService.Parsed(payload));
    assert outcome.Success?;
    BlankFrontsAreDropped(outcome.value);
  }

  /** `FlashcardGenerationService`: holds the injected client, or none until it
      builds its own on first use. `settingsApiKey` is the configured key the
      default client falls back to. */
  class FlashcardGenerationService {
    var llm: LlmService.GeminiService?
    const settingsApiKey: string

    constructor (llm: LlmService.GeminiService?, settingsApiKey: string)
      ensures this.llm == llm && this.settingsApiKey == settingsApiKey
    {
      this.llm := llm;
      this.settingsApiKey := settingsApiKey;
    }

    /** `_generate_flashcards_with_llm`. */
    method GenerateWithLlm(inputText: string, modelName: string, reply: LlmService.ApiReply<seq<RawCard>>)
      returns (r: Result<seq<RawCard>, string>)
      modifies this
      ensures r == LlmCall(old(llm) != null, settingsApiKey, inputText, reply)
      ensures old(llm) != null ==> llm == old(llm)
      ensures old(llm) == null && llm != null ==> fresh(llm) && llm.model == modelName
                                                   && llm.systemInstruction == Some(SystemInstruction)
      ensures old(llm) == null ==> (llm != null <==> settingsApiKey != "")
    {
      if llm == null {
        var built := LlmService.NewGeminiService(None, settingsApiKey, modelName, Some(SystemInstruction),
                                                 DefaultTemperature, DefaultMaxOutputTokens);
        if built.Failure? {
          return Failure(LlmService.MissingApiKeyMessage);
        }
        llm := built.value;
      }
      var outcome, _ := llm.GenerateStructured(Prompt(inputText), "FlashcardGenerationResponse",
                                               ValidateResponseSchema, reply);
      if outcome.Success? {
        r := Success(AsDictionaries(outcome.value));
      } else {
        r := Failure(LlmFailurePrefix + LlmService.LlmErrorText(outcome.error));
      }
    }

    /** `generate_flashcards`: exactly one new session row, written once more
        with the outcome; no flashcard rows are touched. */
    method GenerateFlashcards(db: Store.Database, cmd: Command, reply: LlmService.ApiReply<seq<RawCard>>,
                              latencyMs: nat)
      returns (result: GenerationResult)
      requires db.Valid()
      modifies this, db
      ensures db.Valid()
      ensures result.sessionId !in old(db.sessions)
      ensures db.sessions == old(db.sessions)[result.sessionId :=
                FinalSession(cmd, LlmCall(old(llm) != null, settingsApiKey, cmd.inputText, reply), latencyMs)]
      ensures db.cards == old(db.cards)
      ensures result == ResultFor(result.sessionId,
                                  LlmCall(old(llm) != null, settingsApiKey, cmd.inputText, reply), latencyMs)
    {
      var sessionId := db.CreateSession(InitialSession(cmd));
      var outcome := GenerateWithLlm(cmd.inputText, cmd.modelName, reply);
      result := RecordOutcome(db, sessionId, cmd, outcome, latencyMs);
    }
  }

  /** The tail of `generate_flashcards`: filter the proposals and store the
      count, or store the failure, in the session created for this call. */
  method RecordOutcome(db: Store.Database, sessionId: nat, cmd: Command,
                       outcome: Result<seq<RawCard>, string>, latencyMs: nat)
    returns (result: GenerationResult)
    requires db.Valid() && sessionId in db.sessions && db.sessions[sessionId] == InitialSession(cmd)
    modifies db
    ensures db.Valid()
    ensures db.sessions == old(db.sessions)[sessionId := FinalSession(cmd, outcome, latencyMs)]
    ensures db.cards == old(db.cards)
    ensures result == ResultFor(sessionId, outcome, latencyMs)
  {
    var session: Session;
    if outcome.Success? {
      var valid := ValidateFlashcards(outcome.value);
      session := db.sessions[sessionId].(generatedCount := |valid|, apiResponseTimeMs := Some(latencyMs as int));
      result := GenerationResult(sessionId, |valid|, valid, true, None, None, Some(latencyMs as int));
    } else {
      session := db.sessions[sessionId].(errorCode := FailureCode, errorMessage := outcome.error);
      result := GenerationResult(sessionId, 0, [], false, Some(FailureCode), Some(FailureUserMessage), None);
    }
    db.SaveSession(sessionId, session);
  }
}
