/** The older Python `ConversationMemory` (python_deprecated/src/types/memory.py): a
    `deque(maxlen=window_size)` of Message values; `get_history` returns a fresh list. */
module LegacyMemory {
  import opened Messages
  import Window

  const DefaultWindowSize: nat := 20

  class ConversationMemory {
    var windowSize: nat
    var history: seq<Message>

    ghost predicate Valid()
      reads this
    {
      |history| <= windowSize
    }

    constructor (windowSize: nat := DefaultWindowSize)
      ensures Valid()
      ensures this.windowSize == windowSize && history == []
    {
      this.windowSize := windowSize;
      history := [];
    }

    method AddMessage(message: Message)
      requires Valid()
      modifies this`history
      ensures Valid()
      ensures history == Window.LastN(old(history) + [message], windowSize)
    {
      history := Window.LastN(history + [message], windowSize);
    }

    /** `list(self.history)`: a value, so later changes to it cannot reach the memory. */
    method GetHistory() returns (messages: seq<Message>)
      ensures messages == history
    {
      messages := history;
    }
  }
}
