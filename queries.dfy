/**
 * The mock-question chat: a message log that only grows, a submit handler
 * that ignores blank input, sends `GET /jobs/questions/{key}` with the
 * trimmed, lower-cased tech stack as key, and appends the user's text and
 * then the reply (the numbered questions, or a failure notice).
 */
module Queries {
  import opened Wrappers
  import opened Text

  datatype Sender = User | Ai

  datatype Message = Message(sender: Sender, content: string)

  /** The response of `GET /jobs/questions/{key}`; the answers are received but not shown. */
  datatype QuestionsResponse = QuestionsResponse(
    technical: seq<string>,
    behavioral: seq<string>,
    technicalAnswers: seq<string>,
    behavioralAnswers: seq<string>)

  const FAILURE_REPLY := "Failed to fetch questions."
  const REPLY_SEPARATOR := "\n\n"

  // ---------------------------------------------------------------------
  // The request key
  // ---------------------------------------------------------------------

  /** `techStack.trim().toLowerCase()`. */
  function RequestKey(techStack: string): string
  {
    Lower(Trim(techStack))
  }

  lemma LowerKeepsWhitespace(s: string)
    ensures forall i :: 0 <= i < |s| ==> (IsWhitespace(Lower(s)[i]) <==> IsWhitespace(s[i]))
  {
  }

  /**
   * The key is trimmed and has no capital letter, normalising it again
   * changes nothing, and it is empty exactly for blank input.
   */
  lemma RequestKeyNormalised(techStack: string)
    ensures IsTrimmed(RequestKey(techStack))
    ensures forall i :: 0 <= i < |RequestKey(techStack)| ==> !IsUpper(RequestKey(techStack)[i])
    ensures RequestKey(RequestKey(techStack)) == RequestKey(techStack)
    ensures RequestKey(techStack) == "" <==> IsBlank(techStack)
  {
    var t := Trim(techStack);
    TrimIsTrimmed(techStack);
    LowerProperties(t);
    LowerKeepsWhitespace(t);
    TrimOfTrimmed(Lower(t));
    TrimEmptyIffBlank(techStack);
  }

  // ---------------------------------------------------------------------
  // The reply text
  // ---------------------------------------------------------------------

  /** `items.map((q, i) => `${kind} ${i + first}: ${q}`)`, numbering from `first`. */
  function Numbered(kind: string, items: seq<string>, first: nat): seq<string>
  {
    if items == [] then []
    else [kind + " " + NatToString(first) + ": " + items[0]] + Numbered(kind, items[1..], first + 1)
  }

  lemma {:induction false} NumberedAt(kind: string, items: seq<string>, first: nat)
    ensures |Numbered(kind, items, first)| == |items|
    ensures forall i :: 0 <= i < |items| ==>
              Numbered(kind, items, first)[i] == kind + " " + NatToString(first + i) + ": " + items[i]
  {
    if items != [] {
      NumberedAt(kind, items[1..], first + 1);
    }
  }

  /** The lines of the reply: the technical questions, then the behavioral ones. */
  function ReplyLines(r: QuestionsResponse): seq<string>
  {
    Numbered("Technical", r.technical, 1) + Numbered("Behavioral", r.behavioral, 1)
  }

  /** The AI message for a successful request. */
  function FormatReply(r: QuestionsResponse): string
  {
    Join(ReplyLines(r), REPLY_SEPARATOR)
  }

  /** The content of the AI message: the formatted questions, or the failure notice. */
  function ReplyText(response: Option<QuestionsResponse>): string
  {
    match response
    case None => FAILURE_REPLY
    case Some(r) => FormatReply(r)
  }

  /**
   * One line per question, technical first; within each group the i-th
   * question (from 0) is numbered i + 1.
   */
  lemma ReplyLinesShape(r: QuestionsResponse)
    ensures |ReplyLines(r)| == |r.technical| + |r.behavioral|
    ensures forall i :: 0 <= i < |r.technical| ==>
              ReplyLines(r)[i] == "Technical " + NatToString(i + 1) + ": " + r.technical[i]
    ensures forall i :: 0 <= i < |r.behavioral| ==>
              ReplyLines(r)[|r.technical| + i] == "Behavioral " + NatToString(i + 1) + ": " + r.behavioral[i]
  {
    NumberedAt("Technical", r.technical, 1);
    NumberedAt("Behavioral", r.behavioral, 1);
  }

  /** With questions of both kinds, the reply is the technical block, a blank line, the behavioral block. */
  lemma FormatReplyBlocks(r: QuestionsResponse)
    requires r.technical != [] && r.behavioral != []
    ensures FormatReply(r) ==
              Join(Numbered("Technical", r.technical, 1), REPLY_SEPARATOR) + REPLY_SEPARATOR +
              Join(Numbered("Behavioral", r.behavioral, 1), REPLY_SEPARATOR)
  {
    NumberedAt("Technical", r.technical, 1);
    NumberedAt("Behavioral", r.behavioral, 1);
    JoinAppend(Numbered("Technical", r.technical, 1), Numbered("Behavioral", r.behavioral, 1), REPLY_SEPARATOR);
  }

  /** A reply without questions is the empty string ([].join gives ""); it is never the failure notice. */
  lemma FormatReplyEmpty(r: QuestionsResponse)
    requires r.technical == [] && r.behavioral == []
    ensures FormatReply(r) == ""
    ensures ReplyText(Some(r)) != ReplyText(None)
  {
  }

  /** A reply with a technical question starts with "Technical 1: " and that question. */
  lemma {:induction false} FormatReplyStart(r: QuestionsResponse)
    requires r.technical != []
    ensures var head := "Technical 1: " + r.technical[0];
            |head| <= |FormatReply(r)| && FormatReply(r)[..|head|] == head
  {
    var lines := ReplyLines(r);
    ReplyLinesShape(r);
    var head := "Technical 1: " + r.technical[0];
    assert NatToString(1) == "1";
    assert lines[0] == head;
    if |lines| > 1 {
      assert FormatReply(r) == head + (REPLY_SEPARATOR + Join(lines[1..], REPLY_SEPARATOR));
    }
  }

  // ---------------------------------------------------------------------
  // The page
  // ---------------------------------------------------------------------

  class QueryPage {
    var techStack: string
    var messages: seq<Message>
    var loading: bool

    constructor ()
      ensures techStack == "" && messages == [] && !loading
    {
      techStack, messages, loading := "", [], false;
    }

    /** Typing in the input. */
    method SetTechStack(s: string)
      modifies this`techStack
      ensures techStack == s
    {
      techStack := s;
    }

    /**
     * `handleSubmit`. `response` is the backend's answer for the key
     * returned (None: the request failed). Blank input does nothing and
     * sends nothing; otherwise the user's text, as typed, and the reply
     * are appended, the input is cleared and `loading` ends false.
     */
    method Submit(response: Option<QuestionsResponse>) returns (key: Option<string>)
      modifies this
      ensures old(messages) <= messages
      ensures IsBlank(old(techStack)) ==>
                key == None && messages == old(messages) &&
                techStack == old(techStack) && loading == old(loading)
      ensures !IsBlank(old(techStack)) ==>
                key == Some(RequestKey(old(techStack))) &&
                messages == old(messages) + [Message(User, old(techStack)), Message(Ai, ReplyText(response))] &&
                techStack == "" && !loading
    {
      TrimEmptyIffBlank(techStack);
      if Trim(techStack) == "" {
        key := None;
        return;
      }

      messages := messages + [Message(User, techStack)];
      loading := true;

      key := Some(Lower(Trim(techStack)));
      match response {
        case Some(r) =>
          var aiResponse := Join(Numbered("Technical", r.technical, 1) + Numbered("Behavioral", r.behavioral, 1),
                                 REPLY_SEPARATOR);
          messages := messages + [Message(Ai, aiResponse)];
        case None =>
          messages := messages + [Message(Ai, FAILURE_REPLY)];
      }

      loading := false;
      techStack := "";
    }
  }
}
