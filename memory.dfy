/** Go's `ConversationMemory` (src/types/memory.go): the bounded, ordered history of one channel.
    AddMessage appends at the tail and, when the history is then longer than the window, drops
    the single oldest entry. */
module Memory {
  import opened Messages
  import Window

  /** The history after one AddMessage on `history`: the message at the tail, and the head
      dropped once if the result exceeds the window. */
  function Added(history: seq<Message>, message: Message, windowSize: nat): seq<Message>
  {
    var h := history + [message];
    if |h| > windowSize then h[1..] else h
  }

  /** The history after adding `messages` one by one to an empty memory. */
  function Replay(messages: seq<Message>, windowSize: nat): seq<Message>
  {
    if |messages| == 0 then []
    else Added(Replay(messages[..|messages| - 1], windowSize), messages[|messages| - 1], windowSize)
  }

  /** One AddMessage on a history within the window: the new message is last, the history stays
      within the window, and at most one entry (the oldest) is dropped, only when the window
      would otherwise be exceeded. */
  lemma AddedKeepsWindow(history: seq<Message>, message: Message, windowSize: nat)
    requires |history| <= windowSize
    ensures var h := Added(history, message, windowSize);
      && |h| <= windowSize
      && (windowSize > 0 ==> h[|h| - 1] == message)
      && (|history| < windowSize ==> h == history + [message])
      && (|history| == windowSize ==> h == (history + [message])[1..])
  {
  }

  /** On a history within the window, dropping one entry is the same as keeping the last
      `windowSize` entries of the history with the message appended. */
  lemma {:induction false} AddedIsLastN(history: seq<Message>, message: Message, windowSize: nat)
    requires |history| <= windowSize
    ensures Added(history, message, windowSize) == Window.LastN(history + [message], windowSize)
  {
    var h := history + [message];
    if |h| > windowSize {
      assert |h| - windowSize == 1;
    }
  }

  /** After any sequence of AddMessage calls from empty, the history is exactly the last
      min(n, windowSize) messages, in the order they were added. */
  lemma {:induction false} ReplayIsLastN(messages: seq<Message>, windowSize: nat)
    ensures Replay(messages, windowSize) == Window.LastN(messages, windowSize)
    decreases |messages|
  {
    if |messages| > 0 {
      var init := messages[..|messages| - 1];
      var last := messages[|messages| - 1];
      ReplayIsLastN(init, windowSize);
      assert |Window.LastN(init, windowSize)| <= windowSize;
      AddedIsLastN(Window.LastN(init, windowSize), last, windowSize);
      Window.LastNAppend(init, last, windowSize);
      assert init + [last] == messages;
    }
  }

  /** With a window of 0 (the zero-value memory) nothing is ever retained. */
  lemma {:induction false} ZeroWindowRetainsNothing(messages: seq<Message>)
    ensures Replay(messages, 0) == []
  {
    ReplayIsLastN(messages, 0);
  }

  class ConversationMemory {
    var windowSize: nat
    var history: seq<Message>

    ghost predicate Valid()
      reads this
    {
      |history| <= windowSize
    }

    /** NewConversationMemory. A negative window makes Go's `make` panic, hence `nat`. */
    constructor (windowSize: nat)
      ensures Valid()
      ensures this.windowSize == windowSize && history == []
    {
      this.windowSize := windowSize;
      history := [];
    }

    method AddMessage(message: Message)
      requires Valid()
      modifies this`history
      ensures Valid()
      ensures history == Added(old(history), message, windowSize)
      ensures history == Window.LastN(old(history) + [message], windowSize)
    {
      AddedIsLastN(history, message, windowSize);
      history := history + [message];
      if |history| > windowSize {
        history := history[1..];
      }
    }

    /** The current history, oldest first; nothing changes. */
    method GetHistory() returns (messages: seq<Message>)
      ensures messages == history
    {
      messages := history;
    }

    method Clear()
      requires Valid()
      modifies this`history
      ensures Valid()
      ensures history == []
    {
      history := [];
    }
  }

  /** A client of the class: a fresh memory fed `messages` one by one holds their last
      `windowSize` entries, whatever the number of messages. */
  method FillFresh(windowSize: nat, messages: seq<Message>) returns (history: seq<Message>)
    ensures history == Window.LastN(messages, windowSize)
  {
    var memory := new ConversationMemory(windowSize);
    var i := 0;
    while i < |messages|
      invariant 0 <= i <= |messages|
      invariant memory.Valid() && memory.windowSize == windowSize
      invariant memory.history == Replay(messages[..i], windowSize)
    {
      memory.AddMessage(messages[i]);
      assert messages[..i + 1][..i] == messages[..i];
      i := i + 1;
    }
    assert messages[..i] == messages;
    ReplayIsLastN(messages, windowSize);
    history := memory.GetHistory();
  }
}
