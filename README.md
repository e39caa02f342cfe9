# Discord bot agent core, in Dafny

This project models the core of a Discord chat bot that is backed by a large language model.
The repository has a Go implementation and two Python ones, a current one and a deprecated one.
All three share the same shape:

- **Conversation memory.** Each channel keeps a sliding window of its latest turns.
  - `ConversationMemory` in src/types/memory.go holds Go messages.
  - src/memory.py holds "author: content" strings in a bounded deque.
  - python_deprecated/src/types/memory.py holds Message values in a bounded deque.
- **Tools.** A tool has a name and a description, and a synchronous and an asynchronous run.
  The base implementation of both runs always fails: an error in src/tools/tools.go, a
  `NotImplementedError` in the Python tools.py.
- **The agent.** It registers its tools by name and describes them to the model. Its
  `GetResponse` / `get_response` turn:
  1. asks the model for a reply;
  2. looks for the directive `Action: (\w+)\nAction Input: (.*)` in it;
  3. runs the named tool if it is registered and records the observation in memory;
  4. after a successful tool run, asks the model once more;
  5. records the final answer.
- **Chunkers.** Long answers are cut into Discord-sized messages.
  - src/utils/split.go cuts at fixed widths.
  - src/utils/utils.go and python_deprecated/src/utils.py pack whole lines greedily and cut only
    lines that are too long by themselves.

## Module layout

Each module below lives in the file of the same name (lower case).

| module | models |
|---|---|
| `Wrappers`, `Messages`, `Strings`, `Window` | shared values: `Option`/`Result`; messages; `Join`, `Split` and `TrimSpace` as Go's `strings` package and Python's `str` define them; the sliding window `LastN` |
| `Memory` | src/types/memory.go |
| `MemoryPy` | src/memory.py |
| `LegacyMemory` | python_deprecated/src/types/memory.py |
| `Tools` | src/tools/tools.go |
| `PyTools` | src/tools/tools.py and python_deprecated/src/tools/tools.py (the two files have the same text) |
| `Models` | the `LLMModel` interface (src/models/llm_model.go) |
| `Directive` | the tool-directive regular expression of both agents |
| `Agent` | src/agent/agent.go |
| `AgentPy` | src/agent.py |
| `LegacyAgent` | python_deprecated/src/agent.py |
| `FixedSplit` | src/utils/split.go |
| `Utils` | `SplitLongText` of src/utils/utils.go |
| `LegacyUtils` | `split_long_text` of python_deprecated/src/utils.py |

**State.** Code that changes state is modelled with classes:

- the memories;
- the `LLMModel`, whose system prompt the agents set;
- the three agents.

Their loops are `while`/`for` loops with invariants. Each is proved against a specification
function, and lemmas then state what that function promises:

- `Window.LastN` for the memories;
- `Agent.Respond` and `AgentPy.Respond` for a turn;
- `FixedSplit.Cut` and `Utils.Chunks` for the chunkers.

**The model as an oracle.** The language model is a function:

- in Go it maps the system prompt and the history to a reply or an error;
- in Python it maps a prompt to a reply or an exception.

A tool's overriding `ARun`/`arun` is likewise a function of its input.

**Go map order.** The order of a Go map range is unspecified. The Go tool texts are therefore
specified as "some enumeration of the keys" (`Agent.Enumerates`). The methods pick keys with `:|`.

## Model

| member | source | states |
|---|---|---|
| Window.LastNIsNewestSuffix | src/memory.py:9-13 | a bounded deque keeps exactly min(length, maxlen) entries, the newest ones, in order |
| Window.LastNAppend | src/memory.py:9-13 | appending to an already windowed history gives the window of the whole history plus the entry |
| Window.LastNConcat | src/memory.py:9-13 | the same for several entries appended in turn |
| Memory.AddedKeepsWindow | src/types/memory.go:18-23 | one AddMessage keeps the history within the window, puts the message last, and drops the single oldest entry exactly when the window is full |
| Memory.AddedIsLastN | src/types/memory.go:18-23 | dropping at most one entry on a history within the window is the same as keeping the last windowSize entries (the deque behaviour of the Python memories) |
| Memory.ReplayIsLastN | src/types/memory.go:18-23 | any number of AddMessage calls on an empty memory leave the last windowSize messages, in order |
| Memory.ZeroWindowRetainsNothing | src/types/memory.go:18-23 | with window 0 every message is dropped at once |
| Memory.ConversationMemory.constructor | src/types/memory.go:10-15 | a new memory has the given window and an empty history |
| Memory.ConversationMemory.AddMessage | src/types/memory.go:18-23 | the history becomes the old history plus the message, its head dropped if over the window, which equals LastN of the two; the window bound is kept |
| Memory.ConversationMemory.GetHistory | src/types/memory.go:26-28 | returns the history unchanged, oldest first |
| Memory.ConversationMemory.Clear | src/types/memory.go:31-33 | the history becomes empty; the window is unchanged |
| Memory.FillFresh | src/types/memory.go:10-23 | a fresh memory fed any list of messages holds exactly the last windowSize of them |
| MemoryPy.ConversationMemory.constructor | src/memory.py:7-9 | a new memory has the given window (20 by default) and an empty deque |
| MemoryPy.ConversationMemory.AddMessage | src/memory.py:11-13 | the deque holds the last window_size entries of the old entries followed by "author: content" |
| MemoryPy.GetHistoryEmpty | src/memory.py:15-17 | the joined history is empty exactly when the deque is, for any non-empty entries (every "author: content" entry is non-empty) |
| MemoryPy.GetHistoryReadsBack | src/memory.py:15-17 | the joined history is empty exactly when the deque is, and single-line entries can be split back out of it |
| LegacyMemory.ConversationMemory.constructor | python_deprecated/src/types/memory.py:9-11 | a new memory has the given window (20 by default) and is empty |
| LegacyMemory.ConversationMemory.AddMessage | python_deprecated/src/types/memory.py:13-15 | the deque holds the last window_size messages of the old ones followed by the new one |
| LegacyMemory.ConversationMemory.GetHistory | python_deprecated/src/types/memory.py:17-19 | returns a copy equal to the history |
| Tools.NewBaseTool | src/tools/tools.go:35-50 | the tool keeps the given name and description |
| Tools.BaseToolRunsFail | src/tools/tools.go:53-60 | both default runs fail on every input, and the message names the tool |
| Tools.DefaultARunFails | src/tools/tools.go:58-60 | a tool that does not override ARun fails with "tool NAME does not support async execution" |
| PyTools.NewTool | src/tools/tools.py:9-11 | the tool keeps the given name and description and has the base methods |
| PyTools.BaseToolRaises | src/tools/tools.py:13-17 | the base run and arun raise NotImplementedError on every input |
| Models.LLMModel.constructor | src/models/gemini.go:42-47 | a model starts with an empty system prompt (the zero value NewGemini leaves) and no prompt set |
| Models.LLMModel.SetSystemPrompt | src/models/llm_model.go:16-17 | the system prompt is replaced, and the call is recorded |
| Models.LLMModel.GenerateWithHistoryAsync | src/models/llm_model.go:13-14 | the reply is the oracle's for the current system prompt and the given history |
| Strings.Split | src/utils/utils.go:89 | Go's strings.Split on "\n": at least one piece, and no piece holds the separator |
| Strings.JoinSplit | src/utils/utils.go:89 | joining the pieces of Split with the separator gives the text back |
| Strings.SplitJoin | src/memory.py:15-17 | splitting a join of separator-free non-empty parts gives the parts back |
| Strings.SplitPrefix | src/utils/utils.go:89 | Split of a separator-free prefix, a separator and a rest is that prefix followed by Split of the rest |
| Strings.SplitAllSep | src/utils/utils.go:89 | a text made only of separators splits into empty pieces only |
| Strings.JoinAppend | src/agent/agent.go:52 | joining with one more part appends the separator and the part |
| Strings.JoinEmpties | python_deprecated/src/utils.py:46 | joining empty pieces with a one-character separator gives only separators |
| Strings.FlattenAppend | src/utils/utils.go:91-130 | concatenating the chunks of two lists is concatenating the lists' concatenations |
| Strings.Without | src/utils/utils.go:91-130 | the text with one character deleted: no occurrence of it is left, and it is no longer than the text |
| Strings.WithoutAppend | src/utils/utils.go:91-130 | removing a character distributes over concatenation |
| Strings.WithoutAbsent | src/utils/utils.go:91-130 | removing a character that does not occur changes nothing |
| Strings.WithoutIsFlattenedSplit | src/utils/utils.go:89 | the text without its newlines is the concatenation of its lines |
| Strings.TrimLeftIsSuffix | src/agent/agent.go:87-88 | TrimLeft returns a suffix that does not start with white space, after only white space |
| Strings.TrimRightIsPrefix | src/agent/agent.go:87-88 | TrimRight returns a prefix that does not end with white space, before only white space |
| Strings.TrimSpaceIsSlice | src/agent/agent.go:87-88 | strings.TrimSpace returns the slice between the leading and the trailing white space |
| Strings.TrimSpaceNoSpace | src/agent/agent.go:87-88 | a text without white space is left unchanged by TrimSpace |
| Directive.WordEnd | src/agent/agent.go:83 | the end of the run of `\w` characters starting at a position |
| Directive.LineEnd | src/agent/agent.go:83 | the end of the line `(.*)` matches from a position |
| Directive.MatchAtSound | src/agent/agent.go:83-84 | the match computed at a position satisfies the regular expression there |
| Directive.MatchAtComplete | src/agent/agent.go:83-84 | any match of the regular expression at a position is the one computed |
| Directive.MatchAtUnique | src/agent/agent.go:83-84 | at a given position the groups of a match are unique (greedy `\w+` and `.*`) |
| Directive.SearchIsLeftmost | src/agent/agent.go:83-84 | the search from a position finds a match and no earlier one, or reports none exactly when there is none |
| Directive.NoMatchAt | src/agent/agent.go:83-84 | a position where the computed match is absent holds no match at all |
| Directive.FindDirectiveIsLeftmost | src/agent.py:38 | re.search / FindStringSubmatch: the leftmost match, and none exactly when the expression matches nowhere |
| Directive.LeftmostDirectiveWins | src/agent/agent.go:83-86 | a match with no match before it is the one found, even when later ones exist |
| Directive.ToolNameIsTrimmed | src/agent/agent.go:87 | group 1 holds no white space, so TrimSpace leaves the tool name unchanged |
| Directive.ExampleDirective | src/agent/agent.go:83-88 | the reply "Action: google_search\nAction Input: capital of France" requests the tool "google_search" with the input "capital of France" |
| Directive.NoLabelNoDirective | src/agent.py:38-39 | a reply without "Action: " anywhere requests no tool |
| Agent.RegistryLastWins | src/agent/agent.go:25-28 | a name is registered exactly when some tool has it, and it is bound to the last such tool of the list |
| Agent.ToolTextsOfSmallRegistry | src/agent/agent.go:47-62 | whatever the map order, no tool gives two empty texts and one tool gives its name and its "name: description" line |
| Agent.EnumeratesSingleton | src/agent/agent.go:49 | ranging over a one-key map yields exactly that key |
| Agent.RequestedIsLeftmostDirective | src/agent/agent.go:83-88 | the requested tool and input are read from the leftmost directive, the input trimmed, and no request is made exactly when no directive occurs |
| Agent.AddedTwice | src/agent/agent.go:100-123 | two AddMessage calls keep the last windowSize of the history followed by both messages |
| Agent.DispatchAppends | src/agent/agent.go:92-123 | after a directive, the turn appends at most two AI text messages, the last of them the answer on success, and keeps the window |
| Agent.RespondAppends | src/agent/agent.go:70-127 | a turn appends at most two AI text messages and no user message, keeps the window, ends with the answer on success, and on failure added at most one message, with one model call more than the messages added (Agent.FollowUpFailureKeepsObservation says which message) |
| Agent.FirstCallFailureKeepsMemory | src/agent/agent.go:75-78 | a failing first model call returns the wrapped error and leaves the memory as it was |
| Agent.ToolRunsOnlyWhenRequested | src/agent/agent.go:86-115 | a tool runs only when the reply requests a registered one, with the requested input; the model is called a second time exactly after a successful run, on the history holding the observation, and never a third time |
| Agent.UnknownToolAnswersVerbatim | src/agent/agent.go:92-123 | a reply naming an unregistered tool is returned and recorded as it stands, with no tool run |
| Agent.ToolFailureReturnsDirective | src/agent/agent.go:95-126 | when the tool fails, "Tool X failed: err" and then the first reply, directive included, are recorded, and that reply is returned without a second model call |
| Agent.FollowUpIsNotScanned | src/agent/agent.go:108-126 | the follow-up reply is returned and recorded as it stands, even when it holds another directive |
| Agent.BaseToolTakesFailureBranch | src/agent/agent.go:95-100 | in any registry, a requested tool that keeps BaseTool's ARun takes the failure branch: "Tool X failed: tool NAME does not support async execution" and then the first reply are recorded, and that reply is returned after one model call |
| Agent.NoDirectiveVerbatim | src/agent/agent.go:83-86 | a reply without a directive is returned as it stands and recorded once; no tool runs and the model is called once |
| Agent.FollowUpFailureKeepsObservation | src/agent/agent.go:102-112 | when the follow-up call fails, the tool had succeeded, the memory keeps "Tool X used. Observation: display" as its only new entry, and the error is returned as "error generating follow-up response: " followed by the model's error |
| Agent.Agent.constructor | src/agent/agent.go:23-44 | the map is the registry of the list, and SetSystemPrompt is called exactly once, with the template filled with a valid tools text and a valid names text |
| Agent.Agent.GetToolNames | src/agent/agent.go:47-53 | the result is the registered names in some enumeration of the map, joined by ", " |
| Agent.Agent.GetToolsString | src/agent/agent.go:56-62 | the result is one "name: description" line per registered tool in some enumeration of the map, joined by newlines |
| Agent.Agent.AddMessage | src/agent/agent.go:65-67 | the memory's AddMessage |
| Agent.Agent.GetResponse | src/agent/agent.go:70-127 | the answer or error and the new history are those of Respond on the history in memory |
| AgentPy.Names | src/agent.py:17 | the names of the tools, in list order |
| AgentPy.IndexOf | src/agent.py:17 | the first position of a name in the list of names |
| AgentPy.BuildRegistryKeys | src/agent.py:17 | the dict comprehension lists each key once, its keys are exactly the names of the list, and each tool is stored under its own name |
| AgentPy.BuildRegistryFirstOccurrence | src/agent.py:17 | the keys are in the order of each name's first occurrence in the list |
| AgentPy.BuildRegistryLastWins | src/agent.py:17 | each name is bound to the last tool of the list with that name |
| AgentPy.DistinctNamesKeepList | src/agent.py:17 | with distinct names the dict's keys are the list's names in order, each bound to its tool |
| AgentPy.ToolLines | src/agent.py:21-23 | one "name: description" line per key, in key order |
| AgentPy.ToolsStringFollowsList | src/agent.py:19-23 | with distinct names the tools text is the list's "name: description" lines, in list order, joined by newlines |
| AgentPy.RespondRecordsUserFirst | src/agent.py:27-59 | the user's turn is recorded before any model call: the history is the window of the earlier turns, the user's turn and at most two "AI: " entries, the last of them the answer on success; a raised exception leaves one entry fewer than prompts sent |
| AgentPy.PromptsShowTheConversation | src/agent.py:28-54 | one or two prompts; the first holds the history with the user's turn; the second is sent only after a successful tool run and holds the history with the observation added |
| AgentPy.FirstReplyIsAnswer | src/agent.py:34-59 | without a directive naming a registered tool, the first reply is returned as it stands after one prompt, and recorded after the user's turn |
| AgentPy.FollowUpIsAnswer | src/agent.py:34-59 | when two prompts were sent, the directive named a registered tool whose arun returned; "AI: Tool X used. Observation: display" is recorded after the user's turn and the second prompt shows it; the answer is the reply to the second prompt as it stands, recorded after the observation, or the exception of that call, which leaves the observation as the last entry |
| AgentPy.FirstCallRaisingKeepsUserTurn | src/agent.py:27-34 | a model call that raises on the first prompt makes get_response raise it, with only the user's turn recorded and one prompt sent |
| AgentPy.ToolRaisingKeepsOnlyUserTurn | src/agent.py:45 | a tool whose arun raises makes get_response raise, with only the user's turn recorded and one prompt sent |
| AgentPy.Agent.constructor | src/agent.py:14-17 | keeps the client and the memory and builds the well-formed tool dict from the list |
| AgentPy.Agent.GetResponse | src/agent.py:25-59 | the answer or exception and the new history are those of Respond |
| LegacyAgent.ToolNamesListsEachToolOnce | python_deprecated/src/agent.py:17-27 | the names joined by _get_tool_names are the list's names, each once |
| LegacyAgent.ToolNamesFollowList | python_deprecated/src/agent.py:25-27 | with distinct names, the names text is the list's names in order, joined by ", " |
| LegacyAgent.Agent.constructor | python_deprecated/src/agent.py:14-23 | builds the tool dict and calls set_system_prompt exactly once, with the template filled with the tools text and the tool names |
| FixedSplit.CutFlatten | src/utils/split.go:9-15 | the fixed-width pieces concatenate back to the text |
| FixedSplit.CutSizes | src/utils/split.go:9-15 | every piece holds 1 to width characters, and all but the last exactly width |
| FixedSplit.CutCount | src/utils/split.go:9-15 | there are ceil(length / width) pieces |
| FixedSplit.SplitLongText | src/utils/split.go:4-17 | a non-positive maxLength returns the text as the one chunk; otherwise the fixed-width pieces |
| FixedSplit.SplitLongTextMeaning | src/utils/split.go:4-17 | the chunks concatenate back to the text, each holds 1 to maxLength characters, all but the last are full, the count is the ceiling, and empty text gives no chunk |
| Utils.LinesPackable | src/utils/utils.go:82-89 | on every input where the function returns, each line can be packed (a non-positive maxLength meets only empty lines) |
| Utils.SubChunks | src/utils/utils.go:112-119 | the sub-chunk loop yields the fixed-width pieces of the line |
| Utils.SplitLongText | src/utils/utils.go:82-133 | the chunks are those of the line-packing specification Chunks |
| Utils.PackLineSized | src/utils/utils.go:97-124 | packing one line keeps every emitted chunk within 1 to maxLength characters, and the current chunk empty or within maxLength |
| Utils.PackLinesSized | src/utils/utils.go:91-125 | the same for all the lines |
| Utils.ChunksWithinLimit | src/utils/utils.go:82-133 | text that fits is the one chunk; otherwise every chunk holds 1 to maxLength characters |
| Utils.PackLineText | src/utils/utils.go:97-124 | packing a line appends exactly the line to the text held, preceded by a newline when it joins the current chunk |
| Utils.PackLineKeeps | src/utils/utils.go:97-124 | after packing a line, the chunks and the current chunk hold, newlines aside, exactly the lines seen so far |
| Utils.PackLinesKeep | src/utils/utils.go:91-125 | the same for all the lines |
| Utils.ChunksKeepText | src/utils/utils.go:82-133 | the chunks hold every non-newline character of the text, in order |
| Utils.PackLinesRejoin | src/utils/utils.go:91-130 | when every line is non-empty and fits, the packed chunks joined by newlines are the lines joined by newlines |
| Utils.ChunksRejoin | src/utils/utils.go:82-133 | when every line is non-empty and fits, joining the chunks with newlines gives the text back exactly |
| Strings.SplitFirstExtend | src/utils/utils.go:89 | the first piece of a split ends at the first separator: text added after a separator does not change it |
| Utils.PackLineGreedy | src/utils/utils.go:97-124 | packing a line that fits, blank or not, keeps packing greedy: no emitted chunk could have taken the first line of the chunk after it, and when the current chunk is empty the last emitted one has no room even for a newline |
| Utils.PackLinesGreedy | src/utils/utils.go:91-125 | the same for all the lines |
| Utils.ChunksGreedy | src/utils/utils.go:91-130 | lines are packed greedily while the total fits: when every line fits, blank lines included, for each chunk but the last, the chunk, a newline and the first line of the next chunk together exceed maxLength |
| Window.LastN | src/memory.py:9-13 | `deque(maxlen=n)` after appends: the last n entries; Window.LastNIsNewestSuffix, Window.LastNAppend and Window.LastNConcat state it |
| Strings.Join | src/memory.py:17 | `sep.join(parts)` and Go's strings.Join; Strings.JoinSplit, Strings.SplitJoin and Strings.JoinAppend state it |
| Strings.TrimSpace | src/agent/agent.go:87-88 | Go's strings.TrimSpace; Strings.TrimSpaceIsSlice and Strings.TrimSpaceNoSpace state it |
| Directive.IsMatchAt | src/agent/agent.go:83 | the reference meaning of `Action: (\w+)\nAction Input: (.*)` matching at a position, with its two groups; Directive.MatchAtSound and Directive.MatchAtComplete tie the computed match to it |
| Agent.ToolLine | src/agent/agent.go:59 | the `"%s: %s"` line of one tool; Agent.ToolTextsOfSmallRegistry and Agent.Agent.GetToolsString state the text built from it |
| Agent.Observation | src/agent/agent.go:96-102 | "Tool X failed: err" or "Tool X used. Observation: display"; Agent.ToolFailureReturnsDirective and Agent.FollowUpFailureKeepsObservation state where it is recorded |
| Agent.Finish | src/agent/agent.go:121-126 | the reply recorded as an AI text message and returned; Agent.NoDirectiveVerbatim, Agent.UnknownToolAnswersVerbatim and Agent.FollowUpIsNotScanned state it |
| MemoryPy.Entry | src/memory.py:13 | the `f"{author}: {content}"` entry; MemoryPy.ConversationMemory.AddMessage records it |
| Messages.TextMessage | src/agent/agent.go:99 | the `NewMessage("AI", [{Type: "text", ...}])` messages of agent.go; Agent.DispatchAppends and Agent.RespondAppends state that every message a turn adds is one |
| Tools.Tool.ARun | src/agent/agent.go:95 | the dynamic `tool.ARun` call: a tool's own ARun when it overrides it, otherwise BaseTool's; Tools.DefaultARunFails and Agent.BaseToolTakesFailureBranch state the default |
| Utils.PackLines | src/utils/utils.go:91-125 | the loop over lines, as PackLine applied to each line in turn; Utils.PackLinesSized, Utils.PackLinesKeep, Utils.PackLinesRejoin and Utils.PackLinesGreedy state it |
| Utils.Close | src/utils/utils.go:127-130 | the flush after the loop: the current chunk is emitted when it is not empty |
| LegacyUtils.RangeSlices | python_deprecated/src/utils.py:65-66 | a positive step gives the fixed-width pieces; a zero step raises ValueError; a negative step gives nothing |
| LegacyUtils.SplitLongText | python_deprecated/src/utils.py:29-76 | where the Go chunker returns, the same chunks; otherwise ValueError for max_length 0, and no chunk for a negative max_length |
| Memory.Added | src/types/memory.go:18-23 | the history after one AddMessage: the message appended, the head dropped once when over the window; Memory.AddedKeepsWindow and Memory.AddedIsLastN state what it keeps |
| MemoryPy.ConversationMemory.GetHistory | src/memory.py:15-17 | the entries joined by newlines, oldest first; MemoryPy.GetHistoryReadsBack states when they can be read back |
| Tools.BaseTool.Run | src/tools/tools.go:53-55 | the default synchronous run: a failure naming the tool (Tools.BaseToolRunsFail) |
| Tools.BaseTool.ARun | src/tools/tools.go:58-60 | the default asynchronous run: a failure naming the tool (Tools.BaseToolRunsFail, Tools.DefaultARunFails) |
| PyTools.Tool.Run | src/tools/tools.py:13-14 | raises NotImplementedError (PyTools.BaseToolRaises) |
| PyTools.Tool.ARun | src/tools/tools.py:16-17 | a subclass's arun when it has one, otherwise raises NotImplementedError (PyTools.BaseToolRaises) |
| Directive.MatchAt | src/agent/agent.go:83 | the match of the regular expression starting exactly at a position; Directive.MatchAtSound and Directive.MatchAtComplete tie it to the reference definition |
| Directive.Search | src/agent/agent.go:84 | the scan over start positions; Directive.SearchIsLeftmost states that it finds the leftmost match |
| Directive.FindDirective | src/agent/agent.go:83-84 | the leftmost directive of a reply, or none; Directive.FindDirectiveIsLeftmost states it |
| Agent.Registry | src/agent/agent.go:25-28 | the map built from the tool list; Agent.RegistryLastWins states its keys and values |
| Agent.Requested | src/agent/agent.go:83-88 | the trimmed groups of the leftmost directive; Agent.RequestedIsLeftmostDirective states it |
| Agent.Respond | src/agent/agent.go:70-127 | one GetResponse turn as a value; the Agent lemmas above state its branches |
| Agent.Dispatch | src/agent/agent.go:92-123 | the rest of a turn once a directive was found; Agent.DispatchAppends states its effect on memory |
| AgentPy.BuildRegistry | src/agent.py:17 | the dict comprehension; AgentPy.BuildRegistryKeys, AgentPy.BuildRegistryFirstOccurrence and AgentPy.BuildRegistryLastWins state its keys, their order and their values |
| AgentPy.ToolsString | src/agent.py:19-23 | the tool lines joined by newlines; AgentPy.ToolsStringFollowsList states it for distinct names |
| AgentPy.Agent.GetToolsString | src/agent.py:19-23 | `_get_tools_string` on the agent's dict |
| AgentPy.Prompt | src/agent.py:31 | the prompt f-string: template, tools, history, then the new input |
| AgentPy.Respond | src/agent.py:25-59 | one get_response turn as a value; each of its five branches has a lemma stating its answer and its history: AgentPy.FirstReplyIsAnswer (no usable directive), AgentPy.ToolRaisingKeepsOnlyUserTurn (arun raises), AgentPy.FollowUpIsAnswer (the tool ran, the follow-up returns or raises), and AgentPy.FirstCallRaisingKeepsUserTurn (the first call raises) |
| LegacyAgent.ToolNames | python_deprecated/src/agent.py:25-27 | the dict's keys joined by ", "; LegacyAgent.ToolNamesListsEachToolOnce and LegacyAgent.ToolNamesFollowList state which names it lists |
| FixedSplit.Cut | src/utils/split.go:9-15 | the fixed-width pieces of a text; FixedSplit.CutFlatten, FixedSplit.CutSizes and FixedSplit.CutCount state what they are |
| Utils.PackLine | src/utils/utils.go:97-124 | one iteration of the line loop: join the current chunk, or flush it and start anew or cut the line |
| Utils.Chunks | src/utils/utils.go:82-133 | the chunks SplitLongText returns; Utils.ChunksWithinLimit, Utils.ChunksKeepText, Utils.ChunksRejoin and Utils.ChunksGreedy state what they promise |

## Left out

- Logging, Discord I/O, `context.Context` cancellation, images and timestamps are left out; nothing in the core reads them.
- The language model and the tools' own `ARun`/`arun` are deterministic oracles; their network calls are not modelled.
- The prompt templates (src/prompts.py, prompts.GetAgentSystemPromptTemplate) are opaque: the template is a constant string, and `fmt.Sprintf`/`str.format` on it is a function parameter.
- Memory.ConversationMemory.GetHistory: returns a value, so the aliasing of the returned Go slice with the memory's backing array is not modelled.
- The window size is a `nat`, because a negative one panics in Go's `make` and raises `ValueError` in Python's `deque`.
- Go measures lengths in bytes and Python in code points; both are lengths of `seq<char>` here, so the byte length of non-ASCII text in Go is not modelled.
- Directive: `\w` is ASCII word characters. This is RE2's meaning in Go; Python's Unicode `\w` also accepts non-ASCII letters, which is not modelled.
- A Go tool returning a nil result with a nil error would crash on `toolResult.ReturnDisplay`; tools here return a result or an error.
- Utils.SplitLongText: requires `Terminates`. When the text does not fit and maxLength is not positive, a line holding any character makes the Go sub-chunk loop run forever (0) or slice out of range (negative).
- Utils.ChunksGreedy: stated when every line fits. A line longer than maxLength is emitted as its own fixed-width pieces, so the chunk before it may have had room for part of it.
- Utils.ChunksKeepText: states that no character other than '\n' is lost. The packer drops a newline where it closes a chunk and drops blank lines met while no chunk is open, so an exact round trip holds only under the conditions of Utils.ChunksRejoin.
- The `get_response` of python_deprecated/src/agent.py is not modelled, because it fails as written. At line 37 it calls `add_message(author, message)`, but the deprecated memory's `add_message` takes a single Message, so the call raises `TypeError` before the model is asked. Line 60 also reads `tools_string`, which the method never defines.
- The Python client call `generate_content(prompt, images)` is modelled as a function of the prompt alone. As written, `GeminiClient.generate_content` (src/gemini_client.py:11) takes only the prompt, and src/main.py:105 gives that client to the agent, so src/agent.py:34 raises `TypeError` on every turn after the user's turn is recorded. The model covers that outcome as an oracle that always fails: AgentPy.FirstCallRaisingKeepsUserTurn states it.
- src/types/message.go declares `NewMessage(role, msgType, content string)`, but src/agent/agent.go calls it with a role and a list of content parts. The model follows agent.go: a message is a role and its content parts (`Messages.TextMessage`).
- The Python `Tool` value's truthiness (`if tool:`) is taken as true for every registered tool, since the base class defines neither `__bool__` nor `__len__`.
