/**
 * The older data model in ai/models.py: a flashcard whose save refuses blank
 * texts, a generation session with a status and an acceptance rate, and the
 * record of every AI-generated card with its accept/reject decision and the
 * user's edits.
 */
module LegacyModels {
  import opened Wrappers
  import Models
  import Text

  // ---------------------------------------------------------------------------
  // Flashcard.save

  const FrontRequiredMessage: string := "Front text is required"
  const BackRequiredMessage: string := "Back text is required"

  /** A legacy flashcard row: only the texts matter to its save check. */
  datatype LegacyCard = LegacyCard(owner: Models.UserId, front: string, back: string,
                                   creationMethod: Models.CreationMethod, aiSession: Option<nat>)

  /** `Flashcard.save`'s guard: an empty or whitespace-only front, then back,
      raises. */
  function SaveError(card: LegacyCard): (r: Option<string>)
    ensures r.None? <==> !Text.IsBlank(card.front) && !Text.IsBlank(card.back)
    ensures r == Some(FrontRequiredMessage) <==> Text.IsBlank(card.front)
    ensures r == Some(BackRequiredMessage) <==> !Text.IsBlank(card.front) && Text.IsBlank(card.back)
    ensures r.None? ==> Text.Strip(card.front) != "" && Text.Strip(card.back) != ""
  {
    Text.StripEmptyIffBlank(card.front);
    Text.StripEmptyIffBlank(card.back);
    if card.front == "" || Text.Strip(card.front) == "" then Some(FrontRequiredMessage)
    else if card.back == "" || Text.Strip(card.back) == "" then Some(BackRequiredMessage)
    else None
  }

  /** The legacy flashcard table. */
  class LegacyTable {
    var rows: map<nat, LegacyCard>

    constructor ()
      ensures rows == map[]
    {
      rows := map[];
    }

    /** Every stored row passed the save check. */
    ghost predicate Valid()
      reads this
    {
      forall id :: id in rows ==> SaveError(rows[id]).None?
    }

    /** `Flashcard.save`: a refused card leaves the table as it was. */
    method Save(id: nat, card: LegacyCard) returns (error: Option<string>)
      requires Valid()
      modifies this
      ensures Valid()
      ensures error == SaveError(card)
      ensures error.Some? ==> rows == old(rows)
      ensures error.None? ==> rows == old(rows)[id := card]
    {
      error := SaveError(card);
      if error.None? {
        rows := rows[id := card];
      }
    }
  }

  // ---------------------------------------------------------------------------
  // AIGenerationSession

  /** The session status. */
  datatype Status = StatusPending | Completed | Failed

  function StatusCode(s: Status): string {
    match s
    case StatusPending => "pending"
    case Completed => "completed"
    case Failed => "failed"
  }

  /** `AIGenerationSession.__str__`: owner email, status and the 47+"..."
      preview of the input. */
  function SessionLabel(ownerEmail: string, status: Status, inputText: string): (r: string)
    ensures |r| <= |ownerEmail| + 3 + |StatusCode(status)| + 3 + 50
    ensures |inputText| <= 50 ==> r == ownerEmail + " - " + StatusCode(status) + " - " + inputText
    ensures |inputText| > 50 ==>
              r == ownerEmail + " - " + StatusCode(status) + " - " + inputText[..47] + "..."
  {
    ownerEmail + " - " + StatusCode(status) + " - " + Models.Preview(inputText)
  }

  /** How many of the generated cards were accepted. */
  function CountAccepted(accepted: seq<bool>): (n: nat)
    ensures n <= |accepted|
    ensures n == |accepted| <==> forall i :: 0 <= i < |accepted| ==> accepted[i]
    ensures n == 0 <==> forall i :: 0 <= i < |accepted| ==> !accepted[i]
  {
    if accepted == [] then 0
    else
      var rest := CountAccepted(accepted[1..]);
      assert forall i :: 1 <= i < |accepted| ==> accepted[i] == accepted[1..][i - 1];
      (if accepted[0] then 1 else 0) + rest
  }

  /** `acceptance_rate` over the `was_accepted` flags of a session's generated
      cards, in exact arithmetic: None for no cards, else the accepted share
      in percent. */
  function AcceptanceRate(accepted: seq<bool>): (r: Option<real>)
    ensures r.None? <==> accepted == []
    ensures r.Some? ==> 0.0 <= r.value <= 100.0
    ensures r.Some? ==> (r.value == 100.0 <==> forall i :: 0 <= i < |accepted| ==> accepted[i])
    ensures r.Some? ==> (r.value == 0.0 <==> forall i :: 0 <= i < |accepted| ==> !accepted[i])
  {
    if accepted == [] then None
    else
      RateOfAccepted(accepted);
      Some(Percent(CountAccepted(accepted), |accepted|))
  }

  /** `(accepted / total) * 100` in exact arithmetic. */
  function Percent(accepted: nat, total: nat): real
    requires total > 0
  {
    ((accepted as real) / (total as real)) * 100.0
  }

  /** The accepted share of a non-empty session, in percent, and what it says
      about the flags. */
  lemma RateOfAccepted(accepted: seq<bool>)
    requires accepted != []
    ensures var rate := Percent(CountAccepted(accepted), |accepted|);
            && 0.0 <= rate <= 100.0
            && (rate == 100.0 <==> forall i :: 0 <= i < |accepted| ==> accepted[i])
            && (rate == 0.0 <==> forall i :: 0 <= i < |accepted| ==> !accepted[i])
  {
    var count := CountAccepted(accepted);
    RateBounds(count as real, |accepted| as real);
    assert (count as real == |accepted| as real) <==> count == |accepted|;
    assert (count as real == 0.0) <==> count == 0;
  }

  /** A share of `total` in percent lies in [0, 100], reaching the ends exactly
      for none and all. */
  lemma RateBounds(n: real, total: real)
    requires 0.0 <= n <= total && total > 0.0
    ensures 0.0 <= (n / total) * 100.0 <= 100.0
    ensures (n / total) * 100.0 == 100.0 <==> n == total
    ensures (n / total) * 100.0 == 0.0 <==> n == 0.0
    ensures (n / total) * 100.0 * total == 100.0 * n
  {
    assert n / total <= 1.0;
    assert (n / total) * total == n;
  }

  // ---------------------------------------------------------------------------
  // GeneratedFlashcard

  /** `final_front` / `final_back`: the edited text when present and non-empty,
      else the original. */
  function FinalText(edited: Option<string>, original: string): (r: string)
    ensures edited.Some? && edited.value != "" ==> r == edited.value
    ensures edited.None? || edited.value == "" ==> r == original
  {
    if edited.Some? && edited.value != "" then edited.value else original
  }

  /** The stored edit after `accept`: a non-empty submission that differs from
      the original replaces it; anything else keeps what was stored. */
  function EditAfterAccept(original: string, stored: Option<string>, submitted: Option<string>): (r: Option<string>)
    ensures submitted.Some? && submitted.value != "" && submitted.value != original ==> r == submitted
    ensures !(submitted.Some? && submitted.value != "" && submitted.value != original) ==> r == stored
  {
    if submitted.Some? && submitted.value != "" && submitted.value != original then submitted else stored
  }

  /** After accepting a non-empty text, the final text is that text, whether
      or not it equals the original. */
  lemma FinalTextAfterAccept(original: string, stored: Option<string>, submitted: string)
    requires submitted != ""
    requires stored.None? || stored.value == ""
    ensures FinalText(EditAfterAccept(original, stored, Some(submitted)), original) == submitted
  {
  }

  /** Python's truth value of an optional text field: present and non-empty. */
  predicate IsEdit(e: Option<string>)
  {
    e.Some? && e.value != ""
  }

  /** A submission `accept` stores: non-empty and different from the original. */
  predicate IsNewText(original: string, submitted: Option<string>)
  {
    submitted.Some? && submitted.value != "" && submitted.value != original
  }

  /** After `accept` a side counts as edited exactly when it already was, or
      when the submitted text is new. */
  lemma NewTextIsAnEdit(original: string, stored: Option<string>, submitted: Option<string>)
    ensures IsEdit(EditAfterAccept(original, stored, submitted)) <==> IsEdit(stored) || IsNewText(original, submitted)
  {
  }

  /** `GeneratedFlashcard`: the AI's original texts, the user's edits, and the
      review decision with its time. */
  class GeneratedFlashcard {
    const sessionId: nat
    const originalFront: string
    const originalBack: string
    var editedFront: Option<string>
    var editedBack: Option<string>
    var wasAccepted: bool
    var reviewedAt: Option<int>

    /** A freshly generated card: unreviewed, no edits. */
    constructor (sessionId: nat, originalFront: string, originalBack: string)
      ensures this.sessionId == sessionId && this.originalFront == originalFront && this.originalBack == originalBack
      ensures editedFront.None? && editedBack.None? && !wasAccepted && reviewedAt.None?
    {
      this.sessionId := sessionId;
      this.originalFront := originalFront;
      this.originalBack := originalBack;
      editedFront, editedBack := None, None;
      wasAccepted, reviewedAt := false, None;
    }

    /** `was_edited`: a non-empty edit of either side is stored. */
    predicate WasEdited()
      reads this
      ensures !WasEdited() ==> FinalFront() == originalFront && FinalBack() == originalBack
      ensures WasEdited() ==> (IsEdit(editedFront) && FinalFront() == editedFront.value)
                              || (IsEdit(editedBack) && FinalBack() == editedBack.value)
    {
      IsEdit(editedFront) || IsEdit(editedBack)
    }

    /** `final_front`: the edited front when it is set and non-empty, else the
        original. */
    function FinalFront(): (r: string)
      reads this
      ensures IsEdit(editedFront) ==> r == editedFront.value
      ensures !IsEdit(editedFront) ==> r == originalFront
    {
      FinalText(editedFront, originalFront)
    }

    /** `final_back`: the edited back when it is set and non-empty, else the
        original. */
    function FinalBack(): (r: string)
      reads this
      ensures IsEdit(editedBack) ==> r == editedBack.value
      ensures !IsEdit(editedBack) ==> r == originalBack
    {
      FinalText(editedBack, originalBack)
    }

    /** `__str__`: the decision and the 47+"..." preview of the original front. */
    function Describe(): (r: string)
      reads this
      ensures wasAccepted ==> r == "Accepted: " + Models.Preview(originalFront)
      ensures !wasAccepted ==> r == "Rejected: " + Models.Preview(originalFront)
      ensures |r| <= 60
    {
      (if wasAccepted then "Accepted" else "Rejected") + ": " + Models.Preview(originalFront)
    }

    /** `accept`: accepted now, and each non-empty submitted text that differs
      from its original is stored as the edit. */
    method Accept(frontText: Option<string>, backText: Option<string>, now: int)
      modifies this
      ensures wasAccepted && reviewedAt == Some(now)
      ensures editedFront == EditAfterAccept(originalFront, old(editedFront), frontText)
      ensures editedBack == EditAfterAccept(originalBack, old(editedBack), backText)
      ensures WasEdited() <==> old(WasEdited()) || IsNewText(originalFront, frontText) || IsNewText(originalBack, backText)
    {
      NewTextIsAnEdit(originalFront, editedFront, frontText);
      NewTextIsAnEdit(originalBack, editedBack, backText);
      wasAccepted := true;
      reviewedAt := Some(now);
      if frontText.Some? && frontText.value != "" && frontText.value != originalFront {
        editedFront := frontText;
      }
      if backText.Some? && backText.value != "" && backText.value != originalBack {
        editedBack := backText;
      }
    }

    /** `reject`: rejected now; the texts stay as they were. */
    method Reject(now: int)
      modifies this
      ensures !wasAccepted && reviewedAt == Some(now)
      ensures editedFront == old(editedFront) && editedBack == old(editedBack)
    {
      wasAccepted := false;
      reviewedAt := Some(now);
    }
  }
}
