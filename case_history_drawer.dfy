/**
 * The case log drawer: comments with highlighted `@mentions`, one styled card
 * per history event, and a box to post a new comment.
 */
module CaseHistoryDrawer {
  import opened Wrappers
  import opened Text

  // ---------------------------------------------------------------------------
  // Mentions.

  /** One space-separated word as rendered: a highlighted span or plain text, followed by a space. */
  datatype Piece = Piece(word: string, highlighted: bool)

  function PieceOf(word: string): (p: Piece)
    ensures p.word == word
    ensures p.highlighted <==> |word| > 0 && word[0] == '@'
  {
    Piece(word, StartsWith(word, "@"))
  }

  /** The pieces for a list of words, in order. */
  function Pieces(words: seq<string>): (r: seq<Piece>)
    ensures |r| == |words|
    ensures forall i :: 0 <= i < |r| ==> r[i] == PieceOf(words[i])
  {
    if words == [] then [] else [PieceOf(words[0])] + Pieces(words[1..])
  }

  /**
   * `renderTextWithMentions`: nothing for a missing or empty text, otherwise one
   * piece per word of `text.split(' ')`.
   */
  function RenderMentions(text: Option<string>): (r: Option<seq<Piece>>)
    ensures r.None? <==> text.None? || text.value == ""
    ensures r.Some? ==> |r.value| == CountChar(text.value, ' ') + 1
    ensures r.Some? ==> forall i :: 0 <= i < |r.value| ==>
              (r.value[i].highlighted <==> |r.value[i].word| > 0 && r.value[i].word[0] == '@')
  {
    if text.None? || text.value == "" then None
    else
      SplitLength(text.value, ' ');
      Some(Pieces(Split(text.value, ' ')))
  }

  /** The characters a list of pieces shows: each word followed by one space. */
  function Displayed(pieces: seq<Piece>): string {
    if pieces == [] then "" else pieces[0].word + " " + Displayed(pieces[1..])
  }

  lemma {:induction false} DisplayedJoin(words: seq<string>)
    requires words != []
    ensures Displayed(Pieces(words)) == Join(words, ' ') + " "
    decreases |words|
  {
    var ps := Pieces(words);
    assert ps[1..] == Pieces(words[1..]);
    if |words| > 1 {
      DisplayedJoin(words[1..]);
      assert Displayed(ps) == words[0] + " " + (Join(words[1..], ' ') + " ");
    } else {
      assert Pieces(words[1..]) == [];
    }
  }

  /** Rendering loses no character: the pieces show the text followed by one trailing space. */
  lemma RenderKeepsText(text: string)
    requires text != ""
    ensures Displayed(RenderMentions(Some(text)).value) == text + " "
  {
    DisplayedJoin(Split(text, ' '));
    JoinSplit(text, ' ');
  }

  // ---------------------------------------------------------------------------
  // Event cards.

  datatype EventType = System | Comment

  /** `CaseHistory`. */
  datatype HistoryEvent = HistoryEvent(
    id: int, action: string, description: string, timestamp: string, kind: EventType,
    userComment: Option<string>)

  datatype Icon = RobotIcon | PersonIcon

  const BLUE := "#3b82f6"
  const PURPLE := "#8b5cf6"
  const RED := "#ef4444"
  const GREEN := "#22c55e"
  const AMBER := "#f59e0b"
  const WHITE := "white"
  const LILAC := "#faf5ff"

  /**
   * The border an event's card takes by precedence: a comment is purple; for a
   * system event the last rule that matches its action wins (Actualización over
   * Creado over Cancel), and blue when none matches.
   */
  function BorderOf(e: HistoryEvent): string {
    if e.kind == Comment then PURPLE
    else if Contains(e.action, "Actualización") then AMBER
    else if Contains(e.action, "Creado") then GREEN
    else if Contains(e.action, "Cancel") then RED
    else BLUE
  }

  /** `PaperItem`: the border colour, icon and background, assigned rule by rule. */
  method EventStyle(e: HistoryEvent) returns (border: string, icon: Icon, bg: string)
    ensures border == BorderOf(e)
    ensures e.kind == Comment <==> icon == PersonIcon
    ensures e.kind == Comment ==> bg == LILAC
    ensures e.kind == System ==> bg == WHITE
  {
    var isComment := e.kind == Comment;
    border := BLUE;
    icon := RobotIcon;
    bg := WHITE;
    if isComment {
      border := PURPLE;
      icon := PersonIcon;
      bg := LILAC;
    } else {
      if Contains(e.action, "Cancel") { border := RED; }
      if Contains(e.action, "Creado") { border := GREEN; }
      if Contains(e.action, "Actualización") { border := AMBER; }
    }
  }

  /** A comment's card never depends on the text of its action. */
  lemma CommentStyleIgnoresAction(e: HistoryEvent, action: string)
    requires e.kind == Comment
    ensures BorderOf(e.(action := action)) == BorderOf(e) == PURPLE
  {
  }

  /** A system event whose action mentions none of the three keywords keeps the default blue. */
  lemma SystemDefaultBlue(e: HistoryEvent)
    requires e.kind == System
    requires !Contains(e.action, "Cancel") && !Contains(e.action, "Creado")
    requires !Contains(e.action, "Actualización")
    ensures BorderOf(e) == BLUE
  {
  }

  // ---------------------------------------------------------------------------
  // New comment box.

  /** `disabled={loading || !newComment.trim()}` on the send button. */
  predicate SendDisabled(loading: bool, comment: string) {
    loading || IsBlank(comment)
  }

  /** The body posted to `/cases/{caseId}/comment`. */
  datatype CommentPost = CommentPost(caseId: string, comment: string)

  class CommentBox {
    var newComment: string
    var loading: bool

    constructor ()
      ensures newComment == "" && !loading
    {
      newComment := "";
      loading := false;
    }

    method Type(text: string)
      modifies this
      ensures newComment == text && loading == old(loading)
    {
      newComment := text;
    }

    /**
     * `handleSendComment`: a blank comment is not sent; otherwise the comment
     * is posted as typed and, when the post succeeds (`ok`), the box is cleared
     * and the parent is told to reload (`notified`).
     */
    method SendComment(caseId: string, ok: bool) returns (post: Option<CommentPost>, notified: bool)
      modifies this
      ensures post.Some? <==> !IsBlank(old(newComment))
      ensures post.Some? ==> post.value == CommentPost(caseId, old(newComment))
      ensures post.None? ==> newComment == old(newComment) && loading == old(loading) && !notified
      ensures post.Some? ==> !loading && notified == ok
      ensures post.Some? && ok ==> newComment == ""
      ensures post.Some? && !ok ==> newComment == old(newComment)
    {
      notified := false;
      if IsBlank(newComment) {
        return None, false;
      }
      loading := true;
      post := Some(CommentPost(caseId, newComment));
      if ok {
        newComment := "";
        notified := true;
      }
      loading := false;
    }
  }

  /** Whatever the button shows, a comment that is only whitespace is never posted. */
  lemma WhitespaceNeverSent(comment: string)
    requires AllWhitespace(comment)
    ensures SendDisabled(false, comment)
  {
    BlankIffAllWhitespace(comment);
  }
}
