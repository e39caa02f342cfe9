/** One conversation turn: an author role and its ordered content parts. The creation time the
    source stamps on each message is left out; nothing in the core reads it. */
module Messages {

  /** One content part: its kind ("text", "image", ...) and its payload. */
  datatype Content = Content(kind: string, text: string)

  datatype Message = Message(role: string, contents: seq<Content>)

  /** The single-part text message the agent builds for its own turns. */
  function TextMessage(role: string, text: string): Message
  {
    Message(role, [Content("text", text)])
  }
}
