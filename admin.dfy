/**
 * Display helpers of the admin site (flashcards/core/admin.py): 50-character
 * previews and the link from a flashcard to its generation session.
 */
module Admin {
  import opened Wrappers
  import opened Models
  import Text

  const AdminPreviewLength: nat := 50

  /** A text cut to its first 50 characters, followed by "...", when longer. */
  function AdminPreview(s: string): (r: string)
    ensures |r| <= AdminPreviewLength + 3
    ensures |s| <= AdminPreviewLength ==> r == s
    ensures |s| > AdminPreviewLength ==> |r| == AdminPreviewLength + 3
                                         && r[..AdminPreviewLength] == s[..AdminPreviewLength]
                                         && r[AdminPreviewLength..] == "..."
  {
    if |s| > AdminPreviewLength then s[..AdminPreviewLength] + "..." else s
  }

  /** Previewing a preview changes nothing. */
  lemma AdminPreviewIdempotent(s: string)
    ensures AdminPreview(AdminPreview(s)) == AdminPreview(s)
  {
    if |s| > AdminPreviewLength {
      var p := AdminPreview(s);
      assert p[..AdminPreviewLength] == s[..AdminPreviewLength];
    }
  }

  /** The admin preview keeps three more characters than the model's own
      label preview, and agrees with it on the first 47. */
  lemma AdminPreviewExtendsLabelPreview(s: string)
    ensures |Preview(s)| <= |AdminPreview(s)|
    ensures |s| > AdminPreviewLength ==> Preview(s)[..47] == AdminPreview(s)[..47]
  {
    if |s| > AdminPreviewLength {
      assert Preview(s)[..47] == s[..47];
      assert AdminPreview(s)[..47] == s[..AdminPreviewLength][..47];
    }
  }

  /** `FlashcardAdmin.front_preview`. */
  function FrontPreview(card: Flashcard): (r: string)
    ensures |card.front| <= AdminPreviewLength ==> r == card.front
    ensures |card.front| > AdminPreviewLength ==> r == card.front[..AdminPreviewLength] + "..."
  {
    AdminPreview(card.front)
  }

  /** `FlashcardAdmin.back_preview`. */
  function BackPreview(card: Flashcard): (r: string)
    ensures |card.back| <= AdminPreviewLength ==> r == card.back
    ensures |card.back| > AdminPreviewLength ==> r == card.back[..AdminPreviewLength] + "..."
  {
    AdminPreview(card.back)
  }

  /** `AIGenerationSessionAdmin.input_preview`. */
  function InputPreview(session: Session): (r: string)
    ensures |session.inputText| <= AdminPreviewLength ==> r == session.inputText
    ensures |session.inputText| > AdminPreviewLength ==> r == session.inputText[..AdminPreviewLength] + "..."
  {
    AdminPreview(session.inputText)
  }

  const LinkHead: string := "<a href=\"/admin/core/aigenerationsession/"
  const LinkChange: string := "/change/"
  const LinkLabel: string := "\">Session #"
  const LinkTail: string := "</a>"

  /** `FlashcardAdmin.ai_session_link`: "-" for a card without a session,
      else an anchor to the session's change page labelled with its id. The
      escaping of the arguments leaves digits and the path as they are. */
  function SessionLink(aiSession: Option<nat>): (r: string)
    ensures r == "-" <==> aiSession.None?
    ensures aiSession.Some? ==>
              var digits := Text.Decimal(aiSession.value);
              r == LinkHead + digits + LinkChange + LinkLabel + digits + LinkTail
  {
    match aiSession
    case None => "-"
    case Some(id) =>
      var digits := Text.Decimal(id);
      LinkHead + digits + LinkChange + LinkLabel + digits + LinkTail
  }

  /** Different sessions get different links: the id is read back from the
      digits between the fixed head and "/change/". */
  lemma SessionLinkInjective(a: nat, b: nat)
    requires SessionLink(Some(a)) == SessionLink(Some(b))
    ensures a == b
  {
    var restA := LinkAfterDigits(a);
    var restB := LinkAfterDigits(b);
    DigitRunIsDelimited(Text.Decimal(a), restA, Text.Decimal(b), restB);
    Text.DecimalRoundTrip(a);
    Text.DecimalRoundTrip(b);
  }

  /** The part of a session link after its head: the digits, then text that
      starts with '/'. */
  lemma LinkAfterDigits(id: nat) returns (rest: string)
    ensures SessionLink(Some(id))[|LinkHead|..] == Text.Decimal(id) + rest
    ensures |rest| > 0 && rest[0] == '/'
  {
    var digits := Text.Decimal(id);
    rest := LinkChange + LinkLabel + digits + LinkTail;
    assert SessionLink(Some(id)) == LinkHead + (digits + rest);
    assert LinkChange[0] == '/';
  }

  /** Two digit runs each followed by a '/' are equal when the whole texts are. */
  lemma DigitRunIsDelimited(x: string, restX: string, y: string, restY: string)
    requires forall i :: 0 <= i < |x| ==> Text.IsDigit(x[i])
    requires forall i :: 0 <= i < |y| ==> Text.IsDigit(y[i])
    requires |restX| > 0 && restX[0] == '/' && |restY| > 0 && restY[0] == '/'
    requires x + restX == y + restY
    ensures x == y
  {
    var whole := x + restX;
    assert whole[|x|] == '/' && !Text.IsDigit(whole[|x|]);
    assert (y + restY)[|y|] == '/' && !Text.IsDigit(whole[|y|]);
    assert forall i :: 0 <= i < |x| ==> whole[i] == x[i];
    assert forall i :: 0 <= i < |y| ==> whole[i] == y[i];
    assert |x| == |y|;
    assert x == (x + restX)[..|x|];
    assert y == (y + restY)[..|y|];
  }
}
