/**
 * The `generate_flashcards` management command
 * (flashcards/core/management/commands/generate_flashcards.py): argument
 * guards, an optional pass through the AI generation service, then a loop that
 * seeds `count` flashcards from generated texts.
 *
 * The random category, the fake texts and the random creation method of a
 * "mixed" run are inputs: `contentAt(i)` and `pickAt(i)` are what iteration
 * `i` drew.
 */
module SeedCommand {
  import opened Wrappers
  import opened Models
  import Text
  import Store
  import LlmService
  import FlashcardGeneration

  const CountMessage: string := "Count must be a positive integer"
  const InputTextMessage: string := "--input-text is required when using --creation-method=ai_full"
  const NoUsersMessage: string := "No users found in database. Create a user first or specify --user"
  const AiFailurePrefix: string := "Failed to generate flashcards: AI generation failed: "

  /** The message for an unknown `--user` email. */
  function UnknownUserMessage(email: string): string {
    "User with email '" + email + "' does not exist"
  }

  /** A row of the user table. */
  datatype User = User(id: UserId, email: string)

  /** `--creation-method`: one method for every card, or a random one each. */
  datatype SeedMethod = Fixed(creation: CreationMethod) | Mixed

  /** The user to seed for: the one with the given email, or the first user
      when no email is given. Emails are taken to be unique. */
  function ResolveUser(users: seq<User>, email: Option<string>): (r: Result<User, string>)
    ensures email.Some? && email.value != "" ==>
              (r.Success? <==> exists i :: 0 <= i < |users| && users[i].email == email.value)
    ensures email.Some? && email.value != "" && r.Success? ==> r.value in users && r.value.email == email.value
    ensures email.Some? && email.value != "" && r.Failure? ==> r.error == UnknownUserMessage(email.value)
    ensures (email.None? || email.value == "") ==>
              r == (if users == [] then Failure(NoUsersMessage) else Success(users[0]))
  {
    if email.Some? && email.value != "" then
      match FindByEmail(users, email.value)
      case None => Failure(UnknownUserMessage(email.value))
      case Some(u) => Success(u)
    else if users == [] then Failure(NoUsersMessage)
    else Success(users[0])
  }

  /** The first user with that email. */
  function FindByEmail(users: seq<User>, email: string): (r: Option<User>)
    ensures r.Some? <==> exists i :: 0 <= i < |users| && users[i].email == email
    ensures r.Some? ==> r.value in users && r.value.email == email
  {
    if users == [] then None
    else if users[0].email == email then Some(users[0])
    else
      var rest := FindByEmail(users[1..], email);
      assert forall i :: 1 <= i < |users| ==> users[i] == users[1..][i - 1];
      rest
  }

  /** The guards of `handle`, in order: a positive count, an input text for an
      `ai_full` run, then the user. */
  function CheckArguments(count: int, choice: SeedMethod, inputText: Option<string>,
                          users: seq<User>, email: Option<string>): (r: Result<User, string>)
    ensures count <= 0 ==> r == Failure(CountMessage)
    ensures count > 0 && choice == Fixed(AiFull) && (inputText.None? || inputText.value == "") ==>
              r == Failure(InputTextMessage)
    ensures count > 0 && (choice == Fixed(AiFull) ==> inputText.Some? && inputText.value != "") ==>
              r == ResolveUser(users, email)
  {
    if count <= 0 then Failure(CountMessage)
    else if choice == Fixed(AiFull) && (inputText.None? || inputText.value == "") then Failure(InputTextMessage)
    else ResolveUser(users, email)
  }

  /** `_generate_flashcard_content`'s cut: front to 200 and back to 500
      characters, whatever was generated. */
  function FlashcardContent(rawFront: string, rawBack: string): (r: (string, string))
    ensures |r.0| <= MaxFrontLength && |r.1| <= MaxBackLength
    ensures r.0 <= rawFront && r.1 <= rawBack
    ensures |rawFront| <= MaxFrontLength ==> r.0 == rawFront
    ensures |rawBack| <= MaxBackLength ==> r.1 == rawBack
  {
    (Text.Prefix(rawFront, MaxFrontLength), Text.Prefix(rawBack, MaxBackLength))
  }

  /** The card iteration `i` of the seeding loop creates. */
  function SeedRow(user: User, choice: SeedMethod, contentAt: nat -> (string, string),
                   pickAt: nat -> CreationMethod, defaultState: ReviewState, i: nat): (c: Flashcard)
    ensures c.owner == user.id && c.aiSession.None? && c.reviewState == defaultState
    ensures |c.front| <= MaxFrontLength && |c.back| <= MaxBackLength
    ensures choice.Fixed? ==> c.creationMethod == choice.creation
    ensures choice.Mixed? ==> c.creationMethod == pickAt(i)
  {
    var content := FlashcardContent(contentAt(i).0, contentAt(i).1);
    var m := if choice.Mixed? then pickAt(i) else choice.creation;
    Flashcard(user.id, content.0, content.1, m, None, defaultState)
  }

  /** The rows of the seeding loop, in order. */
  function SeedRows(user: User, count: nat, choice: SeedMethod, contentAt: nat -> (string, string),
                    pickAt: nat -> CreationMethod, defaultState: ReviewState): (rows: seq<Flashcard>)
    ensures |rows| == count
    ensures forall i :: 0 <= i < count ==> rows[i] == SeedRow(user, choice, contentAt, pickAt, defaultState, i)
  {
    seq(count, i requires 0 <= i => SeedRow(user, choice, contentAt, pickAt, defaultState, i))
  }

  /** The rows the `ai_full` pass creates: one AI_FULL card per proposal,
      linked to the generation session. */
  function AiRows(user: User, sessionId: nat, cards: seq<FlashcardGeneration.Card>,
                  defaultState: ReviewState): (rows: seq<Flashcard>)
    ensures |rows| == |cards|
    ensures forall i :: 0 <= i < |cards| ==>
              rows[i] == Flashcard(user.id, cards[i].front, cards[i].back, AiFull, Some(sessionId), defaultState)
  {
    seq(|cards|, i requires 0 <= i < |cards| =>
      Flashcard(user.id, cards[i].front, cards[i].back, AiFull, Some(sessionId), defaultState))
  }

  /** `after` is `before` plus `rows[k]` under the fresh key `ids[k]`, keys
      increasing, and nothing else. */
  ghost predicate AddedExactly(before: map<nat, Flashcard>, after: map<nat, Flashcard>,
                               ids: seq<nat>, rows: seq<Flashcard>) {
    && |ids| == |rows|
    && (forall k, l :: 0 <= k < l < |ids| ==> ids[k] < ids[l])
    && (forall k :: 0 <= k < |ids| ==> ids[k] !in before && ids[k] in after && after[ids[k]] == rows[k])
    && (forall id :: id in before ==> id in after && after[id] == before[id])
    && (forall id :: id in after ==> id in before || id in ids)
  }

  /** A loop of `Flashcard.objects.create`, one row per element, in order. */
  method CreateRows(db: Store.Database, rows: seq<Flashcard>) returns (ids: seq<nat>)
    requires db.Valid()
    modifies db
    ensures db.Valid() && db.sessions == old(db.sessions)
    ensures AddedExactly(old(db.cards), db.cards, ids, rows)
    ensures forall k :: 0 <= k < |ids| ==> old(db.nextCardId) <= ids[k] < db.nextCardId
  {
    ids := [];
    var i := 0;
    while i < |rows|
      invariant 0 <= i <= |rows| && |ids| == i
      invariant db.Valid() && db.sessions == old(db.sessions)
      invariant old(db.nextCardId) <= db.nextCardId
      invariant AddedExactly(old(db.cards), db.cards, ids, rows[..i])
      invariant forall k :: 0 <= k < i ==> old(db.nextCardId) <= ids[k] < db.nextCardId
    {
      ghost var cardsBefore := db.cards;
      var id := db.CreateFlashcard(rows[i]);
      AddedOneMore(old(db.cards), cardsBefore, db.cards, ids, rows[..i], id, rows[i]);
      assert rows[..i + 1] == rows[..i] + [rows[i]];
      ids := ids + [id];
      i := i + 1;
    }
    assert rows[..i] == rows;
  }

  /** One more row under a key above all earlier ones extends the addition. */
  lemma AddedOneMore(before: map<nat, Flashcard>, middle: map<nat, Flashcard>, after: map<nat, Flashcard>,
                     ids: seq<nat>, rows: seq<Flashcard>, id: nat, row: Flashcard)
    requires AddedExactly(before, middle, ids, rows)
    requires id !in middle && after == middle[id := row]
    requires forall k :: 0 <= k < |ids| ==> ids[k] < id
    ensures AddedExactly(before, after, ids + [id], rows + [row])
  {
  }

  /** `handle`. A failed guard or a failed AI pass raises a command error with
      the stated message; otherwise the `ai_full` pass (when chosen) adds one
      card per proposal, and the seeding loop adds exactly `count` cards. */
  method Handle(db: Store.Database, settingsApiKey: string, users: seq<User>, count: int,
                email: Option<string>, choice: SeedMethod, inputText: Option<string>,
                contentAt: nat -> (string, string), pickAt: nat -> CreationMethod,
                reply: LlmService.ApiReply<seq<FlashcardGeneration.RawCard>>, latencyMs: nat,
                defaultState: ReviewState)
    returns (r: Result<seq<nat>, string>)
    requires db.Valid()
    modifies db
    ensures db.Valid()
    ensures var guard := CheckArguments(count, choice, inputText, users, email);
            guard.Failure? ==> r == Failure(guard.error) && db.cards == old(db.cards) && db.sessions == old(db.sessions)
    ensures var guard := CheckArguments(count, choice, inputText, users, email);
            guard.Success? && choice != Fixed(AiFull) ==>
              && db.sessions == old(db.sessions) && r.Success?
              && AddedExactly(old(db.cards), db.cards, r.value,
                              SeedRows(guard.value, count as nat, choice, contentAt, pickAt, defaultState))
    ensures var guard := CheckArguments(count, choice, inputText, users, email);
            var outcome := FlashcardGeneration.LlmCall(false, settingsApiKey, inputText.GetOr(""), reply);
            guard.Success? && choice == Fixed(AiFull) && outcome.Failure? ==>
              && r == Failure(AiFailurePrefix + FlashcardGeneration.FailureUserMessage)
              && db.cards == old(db.cards)
              && exists sid: nat :: (sid !in old(db.sessions)
                 && db.sessions == old(db.sessions)[sid := FlashcardGeneration.FinalSession(
                      FlashcardGeneration.Command(guard.value.id, inputText.GetOr(""), FlashcardGeneration.DefaultModelName),
                      outcome, latencyMs)])
    ensures var guard := CheckArguments(count, choice, inputText, users, email);
            var outcome := FlashcardGeneration.LlmCall(false, settingsApiKey, inputText.GetOr(""), reply);
            guard.Success? && choice == Fixed(AiFull) && outcome.Success? ==>
              && r.Success?
              && |r.value| == |FlashcardGeneration.ValidatedCards(outcome.value)| + count
              && exists sid: nat :: (sid !in old(db.sessions)
                 && db.sessions == old(db.sessions)[sid := FlashcardGeneration.FinalSession(
                      FlashcardGeneration.Command(guard.value.id, inputText.GetOr(""), FlashcardGeneration.DefaultModelName),
                      outcome, latencyMs)]
                 && AddedExactly(old(db.cards), db.cards, r.value,
                                 AiRows(guard.value, sid, FlashcardGeneration.ValidatedCards(outcome.value), defaultState)
                                 + SeedRows(guard.value, count as nat, choice, contentAt, pickAt, defaultState)))
  {
    var guard := CheckArguments(count, choice, inputText, users, email);
    if guard.Failure? {
      return Failure(guard.error);
    }
    var user := guard.value;
    var aiIds: seq<nat> := [];
    var aiRows: seq<Flashcard> := [];
    ghost var cardsBefore := db.cards;
    if choice == Fixed(AiFull) {
      var service := new FlashcardGeneration.FlashcardGenerationService(null, settingsApiKey);
      var cmd := FlashcardGeneration.Command(user.id, inputText.value, FlashcardGeneration.DefaultModelName);
      var result := service.GenerateFlashcards(db, cmd, reply, latencyMs);
      if !result.success {
        return Failure(AiFailurePrefix + result.errorMessage.value);
      }
      aiRows := AiRows(user, result.sessionId, result.flashcards, defaultState);
      aiIds := CreateRows(db, aiRows);
    }
    ghost var cardsMiddle := db.cards;
    var seedRows := SeedRows(user, count as nat, choice, contentAt, pickAt, defaultState);
    var seedIds := CreateRows(db, seedRows);
    AddedTwice(cardsBefore, cardsMiddle, db.cards, aiIds, aiRows, seedIds, seedRows);
    r := Success(aiIds + seedIds);
  }

  /** Two rounds of additions are one addition of both row lists. */
  lemma AddedTwice(before: map<nat, Flashcard>, middle: map<nat, Flashcard>, after: map<nat, Flashcard>,
                   ids1: seq<nat>, rows1: seq<Flashcard>, ids2: seq<nat>, rows2: seq<Flashcard>)
    requires AddedExactly(before, middle, ids1, rows1)
    requires AddedExactly(middle, after, ids2, rows2)
    requires forall k, l :: 0 <= k < |ids1| && 0 <= l < |ids2| ==> ids1[k] < ids2[l]
    ensures AddedExactly(before, after, ids1 + ids2, rows1 + rows2)
  {
  }
}
