/** One chat message and the classification of messages used by summarisation. */
module ChatMessages {
  // Strings are byte strings: one char per byte, as in std::string.
  datatype Message = Message(role: string, nick: string, content: string, toolCallId: string, toolCallsJson: string)

  const SUMMARY_PREFIX := "Conversation summary: "

  predicate IsSystem(m: Message) {
    m.role == "system"
  }

  predicate NotSystem(m: Message) {
    !IsSystem(m)
  }

  predicate IsSummary(m: Message) {
    IsSystem(m) && SUMMARY_PREFIX <= m.content
  }

  /** A system prompt a user defined, as opposed to a generated summary. */
  predicate IsPrompt(m: Message) {
    IsSystem(m) && !IsSummary(m)
  }

  /** A summary is a system message that begins with the prefix, whatever follows it. */
  lemma SummaryIff(m: Message)
    ensures IsSummary(m) <==> m.role == "system" && exists text :: m.content == "Conversation summary: " + text
    ensures IsPrompt(m) <==> m.role == "system" && !exists text :: m.content == "Conversation summary: " + text
    ensures NotSystem(m) <==> m.role != "system"
  {
    if IsSummary(m) {
      assert m.content == "Conversation summary: " + m.content[|SUMMARY_PREFIX|..];
    }
  }

  function SummaryMessage(text: string): Message {
    Message("system", "", SUMMARY_PREFIX + text, "", "")
  }
}
