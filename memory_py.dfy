/** Python's `ConversationMemory` (src/memory.py): the history is a `deque(maxlen=window_size)`
    of "author: content" strings, and `get_history` joins them with newlines. */
module MemoryPy {
  import Strings
  import Window

  const DefaultWindowSize: nat := 20

  /** The single history entry `f"{author}: {content}"`. */
  function Entry(author: string, content: string): string
  {
    author + ": " + content
  }

  class ConversationMemory {
    var windowSize: nat
    var history: seq<string>

    ghost predicate Valid()
      reads this
    {
      |history| <= windowSize
    }

    /** `deque(maxlen=...)` refuses a negative bound, hence `nat`. */
    constructor (windowSize: nat := DefaultWindowSize)
      ensures Valid()
      ensures this.windowSize == windowSize && history == []
    {
      this.windowSize := windowSize;
      history := [];
    }

    /** A bounded deque discards from the head as many entries as it must to take the new one. */
    method AddMessage(author: string, content: string)
      requires Valid()
      modifies this`history
      ensures Valid()
      ensures history == Window.LastN(old(history) + [Entry(author, content)], windowSize)
    {
      history := Window.LastN(history + [Entry(author, content)], windowSize);
    }

    /** `"\n".join(history)`, oldest first. */
    function GetHistory(): string
      reads this
    {
      Strings.Join("\n", history)
    }
  }

  /** The text get_history returns is empty exactly when the history is, whatever the entries
      hold, as long as none of them is empty (every "author: content" entry holds ": "). */
  lemma GetHistoryEmpty(history: seq<string>)
    requires forall k :: 0 <= k < |history| ==> |history[k]| > 0
    ensures (Strings.Join("\n", history) == "") <==> history == []
  {
    if |history| > 1 {
      assert Strings.Join("\n", history) == history[0] + "\n" + Strings.Join("\n", history[1..]);
    }
  }

  /** The entries can be read back from the text get_history returns when none of them spans
      several lines. */
  lemma GetHistoryReadsBack(history: seq<string>)
    requires forall k :: 0 <= k < |history| ==> '\n' !in history[k]
    requires forall k :: 0 <= k < |history| ==> |history[k]| > 0
    ensures (Strings.Join("\n", history) == "") <==> history == []
    ensures history != [] ==> Strings.Split(Strings.Join("\n", history), '\n') == history
  {
    GetHistoryEmpty(history);
    if history != [] {
      Strings.SplitJoin(history, '\n');
    }
  }
}
