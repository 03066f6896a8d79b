# 10xCards flashcard generation and review, modelled in Dafny

10xCards lets a signed-in user paste up to 10,000 characters of text and have a
large language model (Google Gemini) propose 5 to 10 question/answer flashcards.
Each attempt is recorded as an `AIGenerationSession`. The generation service
returns the proposals to its caller without storing them. Flashcards in the
`PENDING` review state are reviewed one at a time: the user accepts each
(optionally edited) or rejects it. No code in the modelled sources sets a
flashcard to `PENDING`. New rows take the field's default state, which is not
declared in the sources and is a parameter of the model. The user's collection
can be listed, paginated and deleted from.

This project models the core of that workflow and proves properties of it:

- `models.dfy` (module `Models`): the two persistent records, their declared
  bounds, the per-user manager filter, the `__str__` previews and the
  `SET_NULL` rule of the session link.
- `store.dfy` (module `Store`): class `Database`, an in-memory stand-in for the
  ORM tables: maps of sessions and flashcards with fresh primary keys.
- `text.dfy` (module `Text`): Python's `str.strip` over the whitespace set of
  `str.isspace`, and `str(n)` for naturals.
- `llm_service.dfy` (module `LlmService`): the Gemini client wrapper. It covers
  the constructor's parameter checks, the prompt guard, the generation config
  and the outcome of a structured call for a given reply.
- `flashcard_generation.dfy` (module `FlashcardGeneration`):
  - the generation service: the response schema, the prompt and the filter of
    proposals;
  - the session bookkeeping on success and on failure, and the result returned
    to the caller.
- `serializers.dfy` (module `GenerationSerializers`): the generation request
  and response serializers.
- `review_views.dfy` (module `ReviewViews`): the accept and reject endpoints
  and the review page, a state machine Pending -> Accepted | Rejected over the
  per-user store.
- `collection_views.dfy` (module `CollectionViews`): the list page's queryset
  and context, and the delete endpoint with its re-paginated fragment.
- `admin.dfy` (module `Admin`): the admin list previews and the session link.
- `seed_command.dfy` (module `SeedCommand`): the `generate_flashcards`
  management command that seeds fake or AI-generated flashcards.
- `legacy_models.dfy` (module `LegacyModels`): the older `ai/models.py`. It has
  a session status, acceptance rate and a `GeneratedFlashcard` record with
  accept/reject methods.

The network reply of the Gemini API, the measured latency, the current time and
Faker's random outputs are parameters of the model.

Where the project's written design and the code disagree, the model follows
the code:

- Sessions in `flashcards/core/models.py` have no status field. Success or
  failure shows only in `error_code`, which is `""` or `"ai_generation_failed"`.
- There are no `timeout` or `empty_result` error codes.
- A reply whose proposals are all filtered out is a success with
  `generated_count == 0`, not a failure.
- A foreign session is refused with 403 by accept and reject. The design
  describes a 404.
- Accepting updates the pending flashcard in place. No new flashcard record
  is created.
- A second accept or reject of the same card is refused with 404. The pending
  filter of the lookup is the guard; `ReviewViews.SecondAcceptFails` proves it.

## Model

| member | source | states |
|---|---|---|
| Models.ParseMethod | flashcards/core/models.py:33-42 | a stored creation-method code is accepted only when it is one of the three declared choices, and then it is that choice's code |
| Models.MethodCodeRoundTrip | flashcards/core/models.py:33-42 | every creation method's code reads back as the same method and is one of `ai_full`, `ai_edited`, `manual` |
| Models.ForUser | flashcards/core/models.py:21-23 | `for_user` keeps exactly the flashcards owned by the user, unchanged |
| Models.ForUserIsolated | flashcards/core/models.py:21-23 | two different users' filtered collections are disjoint, and filtering twice equals filtering once |
| Models.Preview | flashcards/core/models.py:105-108 | the preview is the text itself up to 50 characters, otherwise its first 47 characters plus "...", never longer than 50 |
| Models.PreviewIdempotent | flashcards/core/models.py:107 | previewing a preview changes nothing |
| Models.FlashcardLabel | flashcards/core/models.py:105-108 | `Flashcard.__str__` is the owner e-mail, ": " and the front (truncated to 47 + "..." when over 50) |
| Models.SessionLabel | flashcards/core/models.py:175-182 | `AIGenerationSession.__str__` is the owner e-mail, " - " and the input preview |
| Models.DetachSession | flashcards/core/models.py:70-77 | deleting a session keeps every flashcard, clears exactly the links to that session and changes nothing else |
| Store.Database.CreateSession | flashcards/core/services/flashcard_generation.py:151-156 | a new session row gets a fresh key; the flashcards are untouched |
| Store.Database.SaveSession | flashcards/core/services/flashcard_generation.py:175-177 | saving a session replaces that row only |
| Store.Database.CreateFlashcard | flashcards/core/management/commands/generate_flashcards.py:111-116 | a new flashcard row gets a fresh, increasing key; nothing else changes |
| Store.Database.SaveFlashcard | flashcards/core/views/generate_accept.py:93-101 | saving a flashcard replaces that row only |
| Store.Database.DeleteFlashcard | flashcards/core/views/flashcard_delete.py:47 | deleting removes exactly that flashcard |
| Store.Database.DeleteSession | flashcards/core/models.py:70-77 | deleting a session removes it and unlinks its flashcards (`SET_NULL`) |
| Text.StripIsTrimmedSlice | flashcards/core/services/flashcard_generation.py:318-319 | `strip()` returns a slice of its input with only whitespace cut off, and the result has no whitespace at either end |
| Text.StripEmptyIffBlank | flashcards/core/services/llm_service.py:277 | `s.strip()` is empty exactly when every character of `s` is whitespace |
| Text.StripIdempotent | flashcards/core/views/generate_accept.py:82-84 | stripping twice equals stripping once |
| LlmService.CheckServiceParams | flashcards/core/services/llm_service.py:66-82 | the constructor succeeds iff the key (settings value only when none is passed) is non-empty, 0 <= temperature <= 2.0 and the token budget is positive; checks are made in that order |
| LlmService.EmptyExplicitKeyIsRejected | flashcards/core/services/llm_service.py:66-74 | an explicitly passed empty key is not replaced by the settings key and is refused |
| LlmService.ValidatePrompt | flashcards/core/services/llm_service.py:268-286 | a blank prompt is refused first; otherwise a prompt over 10,000 characters is refused with its length; otherwise it passes |
| LlmService.StructuredOutcome | flashcards/core/services/llm_service.py:177-226 | a refused prompt fails before the API is consulted; a success needs a valid prompt, a parsed reply and a schema-valid payload, and is that payload |
| LlmService.RefusedPromptIgnoresReply | flashcards/core/services/llm_service.py:177 | for a refused prompt the outcome fails and does not depend on the API reply |
| LlmService.GeminiService.constructor | flashcards/core/services/llm_service.py:45-88 | a client built from accepted parameters stores them |
| LlmService.GeminiService.BuildConfig | flashcards/core/services/llm_service.py:247-266 | the config holds temperature, token budget, the system instruction when it is non-empty, and the overrides on top |
| LlmService.GeminiService.GenerateStructured | flashcards/core/services/llm_service.py:156-245 | the result is `StructuredOutcome`; a config is sent iff the prompt passed, and it asks for JSON with the given schema and the client's temperature and budget |
| LlmService.NewGeminiService | flashcards/core/services/llm_service.py:45-88 | construction fails exactly with `CheckServiceParams`' error, else returns a fresh client with the given settings |
| FlashcardGeneration.ValidateResponseSchema | flashcards/core/services/flashcard_generation.py:49-69 | the schema accepts a payload iff it has 5 to 10 cards each with a front of at most 200 and a back of at most 500 characters, and keeps them unchanged |
| FlashcardGeneration.AsDictionaries | flashcards/core/services/flashcard_generation.py:272-274 | each schema card becomes a dictionary with both keys, in order |
| FlashcardGeneration.Keep | flashcards/core/services/flashcard_generation.py:310-341 | a dictionary is kept iff it has both keys and its stripped front is 1..200 and stripped back 1..500 characters; the kept card is the stripped pair |
| FlashcardGeneration.ValidatedCards | flashcards/core/services/flashcard_generation.py:288-343 | the filter never adds cards and every card it returns is stripped and within bounds |
| FlashcardGeneration.KeptPositions | flashcards/core/services/flashcard_generation.py:308-341 | the positions of kept dictionaries, increasing and complete |
| FlashcardGeneration.ValidatedCardsAreKeptInOrder | flashcards/core/services/flashcard_generation.py:308-343 | the filter's output is exactly the kept dictionaries, stripped, in input order |
| FlashcardGeneration.NoValidCardIsDropped | flashcards/core/services/flashcard_generation.py:308-343 | every dictionary that passes the checks appears in the output |
| FlashcardGeneration.BlankFrontsAreDropped | flashcards/core/services/flashcard_generation.py:322 | dictionaries whose fronts are all whitespace yield no cards |
| FlashcardGeneration.ValidateFlashcards | flashcards/core/services/flashcard_generation.py:288-343 | the loop returns exactly `ValidatedCards` of its input |
| FlashcardGeneration.Prompt | flashcards/core/services/flashcard_generation.py:258-262 | the prompt embeds the input verbatim between a fixed head and tail, and is never blank |
| FlashcardGeneration.PromptOverhead | flashcards/core/services/flashcard_generation.py:258-262 | the template adds 155 characters to the input |
| FlashcardGeneration.LlmCall | flashcards/core/services/flashcard_generation.py:231-286 | a successful call yields 5 to 10 dictionaries, each with both keys |
| FlashcardGeneration.DefaultClientNeedsOnlyAKey | flashcards/core/services/flashcard_generation.py:249-255 | the default client (temperature 0.7, 2048 tokens) fails to build iff the settings key is empty |
| FlashcardGeneration.InitialSession | flashcards/core/services/flashcard_generation.py:151-156 | the session is created with count 0, no error code and no latency |
| FlashcardGeneration.FinalSession | flashcards/core/services/flashcard_generation.py:171-220 | on success the session records the number of valid cards and the latency; on failure it records `ai_generation_failed`, the exception text and count 0; an input within 10,000 characters gives a row within the declared bounds |
| FlashcardGeneration.ResultFor | flashcards/core/services/flashcard_generation.py:191-229 | success iff the LLM call succeeded; a success carries the filtered cards, their count and the latency; a failure carries no cards, the fixed error code and the fixed user message |
| FlashcardGeneration.SessionAgreesWithResult | flashcards/core/services/flashcard_generation.py:175-229 | the stored count equals the returned count, and the result succeeds iff the stored error code is blank |
| FlashcardGeneration.NearLimitInputAlwaysFails | flashcards/core/services/flashcard_generation.py:258-262 | an input longer than 9,845 characters always fails, because its prompt exceeds the 10,000-character cap |
| FlashcardGeneration.BlankRepliesSucceedEmpty | flashcards/core/services/flashcard_generation.py:171-197 | a reply whose fronts are all blank is a success with zero cards, not a failure |
| FlashcardGeneration.FlashcardGenerationService.constructor | flashcards/core/services/flashcard_generation.py:120-128 | the service keeps the injected client (or none) |
| FlashcardGeneration.FlashcardGenerationService.GenerateWithLlm | flashcards/core/services/flashcard_generation.py:231-286 | the result is `LlmCall`; a missing client is built once, with the requested model and the system instruction, iff a key is configured |
| FlashcardGeneration.FlashcardGenerationService.GenerateFlashcards | flashcards/core/services/flashcard_generation.py:130-229 | one new session is stored as `FinalSession`, no flashcard changes, and the result is `ResultFor` that session |
| FlashcardGeneration.RecordOutcome | flashcards/core/services/flashcard_generation.py:171-229 | the created session is updated to `FinalSession` and the result is `ResultFor` it |
| GenerationSerializers.CleanCharField | flashcards/api/serializers/generation.py:20-33 | a missing field is Required, a blank one Blank, an over-long trimmed one MaxLength; otherwise the value is the trimmed text, 1..max characters |
| GenerationSerializers.ValidateGenerationRequest | flashcards/api/serializers/generation.py:20-33 | the request is valid iff the input is present, not blank and at most 10,000 characters after trimming; the cleaned value is the trimmed input |
| GenerationSerializers.RequestCleaningIsIdempotent | flashcards/api/serializers/generation.py:20-33 | cleaning an already cleaned input gives the same result |
| GenerationSerializers.ValidateGeneratedFlashcard | flashcards/api/serializers/generation.py:43-50 | a proposal passes iff both fields pass their character-field checks; a passed proposal is within the model bounds |
| GenerationSerializers.CleanEach | flashcards/api/serializers/generation.py:66-69 | a `many=True` list passes iff every element passes, and then holds each cleaned element in order; otherwise the first refused element and its error are reported |
| GenerationSerializers.ValidateGenerationResponse | flashcards/api/serializers/generation.py:60-69 | the response validates iff every proposal does; then it carries them in order, else it reports the first failing proposal |
| GenerationSerializers.SuccessfulResultSerializesUnchanged | flashcards/api/serializers/generation.py:60-69 | a successful generation result always serializes, unchanged |
| GenerationSerializers.ValidCardsPassUnchanged | flashcards/api/serializers/generation.py:43-69 | stripped in-bounds cards pass the response serializer unchanged |
| ReviewViews.ValidateTextFields | flashcards/core/views/generate_accept.py:133-157 | the first failing check in order: empty front, long front, empty back, long back; none iff both are within bounds |
| ReviewViews.AcceptedCard | flashcards/core/views/generate_accept.py:81-92 | the accepted card stores the submitted text and is `ai_edited` iff either text differs from the stripped original, else `ai_full` |
| ReviewViews.DecideAccept | flashcards/core/views/generate_accept.py:46-101 | 404 for a missing session, 403 for a foreign one, 400 without an id, 500 for a non-integer id, 404 unless the card is the user's pending card of that session, 400 for bad text; otherwise the accepted card |
| ReviewViews.Accept | flashcards/core/views/generate_accept.py:30-104 | the response and the new table are exactly `DecideAccept`'s; sessions never change |
| ReviewViews.DecideReject | flashcards/core/views/generate_reject.py:37-72 | the same refusals as accept without the text checks; otherwise the card with state Rejected |
| ReviewViews.Reject | flashcards/core/views/generate_reject.py:26-75 | the response and the new table are exactly `DecideReject`'s |
| ReviewViews.ReviewIsFinal | flashcards/core/views/generate_accept.py:117-128 | once a card is reviewed, both endpoints answer 404 for it |
| ReviewViews.SecondAcceptFails | flashcards/core/views/generate_accept.py:117-128 | accepting the same card twice: the second request is refused with 404 |
| ReviewViews.SecondRejectFails | flashcards/core/views/generate_reject.py:57-68 | rejecting the same card twice: the second request is refused with 404 |
| ReviewViews.PendingInSession | flashcards/core/views/generate_review.py:56-59 | the session's pending cards, ascending by id, all of them |
| ReviewViews.ReviewedCardLeavesPage | flashcards/core/views/generate_review.py:56-62 | reviewing one pending card removes exactly that card from the review page and lowers its count by one |
| ReviewViews.ContextFor | flashcards/core/views/generate_review.py:47-64 | the review context holds the session and exactly its pending cards, in id order, with their count |
| ReviewViews.ReviewPage | flashcards/core/views/generate_review.py:27-45 | corrected review page: 404 for a missing session, 403 for a foreign one, else the context |
| ReviewViews.ReviewPageAsWritten | flashcards/core/views/generate_review.py:37-64 | as written, a foreign session never yields 403; it ends in a server error |
| ReviewViews.ForeignSessionIsNotForbiddenAsWritten | flashcards/core/views/generate_review.py:40-43 | for a foreign session the corrected page is 403 while the page as written is a server error |
| CollectionViews.ClampPageSize | flashcards/core/views/flashcard_list.py:31-45 | the page size is the requested one clamped to 25..50, and 25 when absent or not an integer |
| CollectionViews.ListQueryset | flashcards/core/views/flashcard_list.py:23-29 | the list shows exactly the user's own ready flashcards |
| CollectionViews.ListContextFor | flashcards/core/views/flashcard_list.py:61-76 | `total_count` is the queryset size, `has_flashcards` holds iff the user has a ready card, `page_size` is the clamped size |
| CollectionViews.ListShowsOnlyOwnCards | flashcards/core/views/flashcard_list.py:23-29 | no other user's flashcard is ever listed |
| CollectionViews.NumPages | flashcards/core/views/flashcard_delete.py:63 | the page count is the ceiling of count/size, at least 1, and above 1 iff count exceeds the page size |
| CollectionViews.PageNumber | flashcards/core/views/flashcard_delete.py:64-70 | a requested page in 1..num_pages is used, anything else falls back to page 1 |
| CollectionViews.PageItems | flashcards/core/views/flashcard_delete.py:63-76 | a page holds at most page-size cards, at least one when there are cards, and exactly page-size cards before the last page |
| CollectionViews.DeleteContextFor | flashcards/core/views/flashcard_delete.py:53-82 | the fragment's page size, page count, page number, `is_paginated` (iff count > page size) and `has_flashcards` (iff count > 0) |
| CollectionViews.DeleteFlashcard | flashcards/core/views/flashcard_delete.py:29-82 | a card not owned by the user gives 404 and changes nothing; otherwise exactly that card is removed and the fragment reflects the remaining cards |
| CollectionViews.DeleteRemovesExactlyOne | flashcards/core/views/flashcard_delete.py:40-54 | deleting the user's card lowers that user's count by one and leaves other users' collections unchanged |
| Admin.AdminPreview | flashcards/core/admin.py:78-83 | texts over 50 characters become their first 50 plus "...", others are unchanged |
| Admin.AdminPreviewIdempotent | flashcards/core/admin.py:78-83 | an admin preview of a preview is unchanged |
| Admin.AdminPreviewExtendsLabelPreview | flashcards/core/admin.py:78-83 | the admin preview is never shorter than the `__str__` preview and agrees with it on the first 47 characters |
| Admin.FrontPreview | flashcards/core/admin.py:78-83 | the front, cut at 50 characters with "..." when longer |
| Admin.BackPreview | flashcards/core/admin.py:86-91 | the back, cut at 50 characters with "..." when longer |
| Admin.InputPreview | flashcards/core/admin.py:180-185 | the input text, cut at 50 characters with "..." when longer |
| Admin.SessionLink | flashcards/core/admin.py:99-104 | "-" iff the card has no session, else an anchor to the session's change page labelled with its id |
| Admin.SessionLinkInjective | flashcards/core/admin.py:99-104 | different sessions get different links |
| SeedCommand.ResolveUser | flashcards/core/management/commands/generate_flashcards.py:68-83 | with an e-mail, the user with that e-mail or the "does not exist" error; without one, the first user or the "No users found" error |
| SeedCommand.FindByEmail | flashcards/core/management/commands/generate_flashcards.py:72 | finds a user iff one has that e-mail |
| SeedCommand.CheckArguments | flashcards/core/management/commands/generate_flashcards.py:59-83 | a non-positive count is refused first, then `ai_full` without input text, then the user lookup |
| SeedCommand.FlashcardContent | flashcards/core/management/commands/generate_flashcards.py:195-203 | the generated front and back are prefixes of the raw text cut to 200 and 500 characters |
| SeedCommand.SeedRow | flashcards/core/management/commands/generate_flashcards.py:99-116 | each fake card belongs to the user, has no session, fits the bounds, and has the fixed method or the random pick under `mixed` |
| SeedCommand.SeedRows | flashcards/core/management/commands/generate_flashcards.py:97-117 | exactly `count` rows, the i-th built from the i-th random draw |
| SeedCommand.AiRows | flashcards/core/management/commands/generate_flashcards.py:248-256 | one `ai_full` row per generated card, linked to the session |
| SeedCommand.CreateRows | flashcards/core/management/commands/generate_flashcards.py:97-117 | the loop adds exactly the given rows under fresh increasing keys and changes nothing else |
| SeedCommand.AddedTwice | flashcards/core/management/commands/generate_flashcards.py:88-117 | the AI rows followed by the fake rows are exactly the rows added |
| SeedCommand.Handle | flashcards/core/management/commands/generate_flashcards.py:52-123 | guards fail without writing; otherwise `count` fake rows are added and the sessions are unchanged; under `ai_full` exactly one session is added, holding the service's `FinalSession` for the input, and every earlier session is unchanged; on failure the command aborts with the wrapped user message and adds no card, else the generated cards are stored before the fake ones |
| LegacyModels.SaveError | ai/models.py:111-117 | saving is refused with "Front text is required" when the front is blank, else "Back text is required" when the back is blank |
| LegacyModels.LegacyTable.Save | ai/models.py:111-117 | a refused save leaves the table unchanged, an accepted one stores the row |
| LegacyModels.SessionLabel | ai/models.py:199-206 | the label is e-mail, status code and the 47 + "..." input preview |
| LegacyModels.CountAccepted | ai/models.py:219 | the number of accepted cards, all iff every card was accepted, 0 iff none was |
| LegacyModels.AcceptanceRate | ai/models.py:208-220 | none iff no cards; otherwise a percentage in 0..100 that is 100 iff all were accepted and 0 iff none was |
| LegacyModels.RateOfAccepted | ai/models.py:216-220 | for a non-empty session, `(accepted / total) * 100` lies in 0..100, is 100 iff every card was accepted and 0 iff none was |
| LegacyModels.RateBounds | ai/models.py:220 | `(accepted / total) * 100` lies in 0..100 and hits the ends exactly at none and all |
| LegacyModels.FinalText | ai/models.py:299-315 | the edited text when it is non-empty, else the original |
| LegacyModels.EditAfterAccept | ai/models.py:327-331 | a submitted text is stored as the edit iff it is non-empty and differs from the original |
| LegacyModels.FinalTextAfterAccept | ai/models.py:299-331 | after accepting a non-empty submitted text, the final text is that text |
| LegacyModels.NewTextIsAnEdit | ai/models.py:290-331 | after `accept` a side's stored edit is non-empty iff it already was or the submitted text is non-empty and new |
| LegacyModels.GeneratedFlashcard.constructor | ai/models.py:239-272 | a new generated card is unreviewed, unaccepted and unedited |
| LegacyModels.GeneratedFlashcard.WasEdited | ai/models.py:290-297 | a card not edited shows its original front and back; an edited card shows at least one non-empty edit |
| LegacyModels.GeneratedFlashcard.FinalFront | ai/models.py:299-306 | the front is the edit when one is stored and non-empty, otherwise the original |
| LegacyModels.GeneratedFlashcard.FinalBack | ai/models.py:308-315 | the back is the edit when one is stored and non-empty, otherwise the original |
| LegacyModels.GeneratedFlashcard.Describe | ai/models.py:280-288 | "Accepted: " or "Rejected: " followed by the front preview, at most 60 characters |
| LegacyModels.GeneratedFlashcard.Accept | ai/models.py:317-333 | the card becomes accepted at `now`, each edit is replaced only by a non-empty text that differs from the original, and the card counts as edited iff it already did or a submitted text is new |
| LegacyModels.GeneratedFlashcard.Reject | ai/models.py:335-339 | the card becomes not accepted at `now`, and its edits are kept |

## Left out

- The Gemini network call, timing (`time.time`), `timezone.now`, Faker and
  `random.choice`: they become parameters (`ApiReply`, `latencyMs`, `now`,
  `contentAt`, `pickAt`).
- Logging and the command's stdout messages are not modelled.
- LlmService.CheckServiceParams: the temperature is a real number, so a float
  NaN, which the source's range check lets through, cannot be expressed.
- The Gemini client object is not modelled, and neither is the
  `ImproperlyConfigured` raised when it cannot be created (llm_service.py:84-95).
- `generate_text` and `_handle_api_error` (llm_service.py:107-154, 288-311) are
  outside the generation workflow and are not modelled.
- `generate_structured`'s check that the schema is a pydantic model
  (llm_service.py:179-181) always passes for the one schema used, and is omitted.
- Pydantic's `model_validate` and the Django/DRF validator machinery are
  library internals. The model states the declared bounds as predicates over
  decoded records. DRF's checks for null characters and surrogates are omitted.
- LlmService.LlmErrorText: a reply without parsed data yields the text "API
  response did not contain structured data". The source builds pydantic's
  `ValidationError` from a bare string (llm_service.py:209); what that library
  call raises, and so the exact text stored in `error_message`, is not
  modelled. The outcome is a failure either way.
- GenerationSerializers.CleanEach: DRF's list serializer reports the errors of
  every element. The model reports the first refused element only.
- ReviewViews.Accept: the `updated_at` and `created_at` timestamps are not
  modelled, and neither is the `-created_at` ordering of lists.
- CollectionViews.ListContextFor: the `ready()` queryset method is not defined
  in the sources, so it is an uninterpreted predicate `ready`. The ListView's
  own pagination of the page (including its 404 for an invalid page number) is
  not modelled; the list context counts are.
- CollectionViews.DeleteFlashcard: the try/except around `delete()` only logs
  and sets a flash message, so it is not modelled. The ORM delete is taken to
  succeed.
- `CASCADE` deletion of a user's rows is not modelled: users are not stored.
- Flashcard review state: `Flashcard.ai_review_state` and its `PENDING`,
  `ACCEPTED` and `REJECTED` constants are used by the views but are not declared
  in flashcards/core/models.py. The model adds `reviewState`. The seed command
  takes the state new cards get as a parameter (`defaultState`).
- SeedCommand.ResolveUser: e-mails are taken to be unique. `User.objects.get`
  raising `MultipleObjectsReturned` is not modelled.
- SeedCommand.Handle: the seed command's categories and question formats
  (generate_flashcards.py:125-193) only shape Faker text. The model takes the
  raw front and back as the parameter `contentAt` and keeps the truncation.
  The API view (flashcards/api/views/generation.py) that calls the service is
  glue and is not part of this model.
- Store.Database: sessions and flashcards are maps keyed by primary key. There
  are no transactions or concurrency: each request runs alone.
- LegacyModels.GeneratedFlashcard.Accept: `save()` is a no-op for the
  in-memory object. The status transitions of the legacy session model are
  not driven by any code in the sources; only the label reads the status.

## Findings

| source | as written | input that shows it | evidently intended | confidence | as-written member | corrected member |
|---|---|---|---|---|---|---|
| flashcards/core/views/generate_review.py:40-43 | `get_object` returns an `HttpResponseForbidden` as the detail object instead of raising `PermissionDenied`; `DetailView.get` then stores it as `self.object`, and the pending-card filter `ai_session=self.object` fails on a non-session value, so the request ends in a server error | a signed-in user opens the review page of another user's existing session | the response is 403 "You don't have permission to access this generation session." as the class comment promises | medium; not executed | ReviewViews.ReviewPageAsWritten | ReviewViews.ReviewPage |
