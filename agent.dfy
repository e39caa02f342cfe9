/** The Go agent (src/agent/agent.go): a registry of tools by name, a system prompt announcing
    them, and the turn loop `GetResponse`, which asks the model for a reply, runs the tool the
    reply names (if any and if registered), asks once more after a successful tool run, and
    commits the turns it produced to the conversation memory. */
module Agent {
  import opened Wrappers
  import opened Messages
  import Strings
  import Window
  import Memory
  import Tools
  import Directive
  import Models

  /** The map NewAgent builds: each tool under its `Name()`, a later tool replacing an earlier one
      with the same name. */
  function Registry(toolList: seq<Tools.Tool>): map<string, Tools.Tool>
    decreases |toolList|
  {
    if |toolList| == 0 then map[]
    else
      var last := toolList[|toolList| - 1];
      Registry(toolList[..|toolList| - 1])[last.Name() := last]
  }

  /** A name is registered exactly when some tool of the list has it, and it is bound to the last
      tool of the list with that name. */
  lemma {:induction false} RegistryLastWins(toolList: seq<Tools.Tool>, name: string)
    ensures name in Registry(toolList) <==> exists i :: 0 <= i < |toolList| && toolList[i].Name() == name
    ensures name in Registry(toolList) ==>
      exists i :: 0 <= i < |toolList| && toolList[i].Name() == name && Registry(toolList)[name] == toolList[i]
        && forall j :: i < j < |toolList| ==> toolList[j].Name() != name
    decreases |toolList|
  {
    if |toolList| > 0 {
      var init := toolList[..|toolList| - 1];
      var last := toolList[|toolList| - 1];
      RegistryLastWins(init, name);
      if last.Name() == name {
        assert toolList[|toolList| - 1].Name() == name;
      } else if name in Registry(init) {
        var i :| 0 <= i < |init| && init[i].Name() == name && Registry(init)[name] == init[i]
          && forall j :: i < j < |init| ==> init[j].Name() != name;
        assert toolList[i] == init[i];
        assert forall j :: i < j < |toolList| ==> toolList[j].Name() != name by {
          forall j | i < j < |toolList| ensures toolList[j].Name() != name {
            if j < |init| {
              assert toolList[j] == init[j];
            }
          }
        }
      } else {
        forall i | 0 <= i < |toolList| ensures toolList[i].Name() != name {
          if i < |init| {
            assert toolList[i] == init[i];
          }
        }
      }
    }
  }

  /** `order` lists every key exactly once, in some order: what ranging over a Go map yields
      (Go leaves the order unspecified and varies it from one loop to the next). */
  ghost predicate Enumerates(order: seq<string>, keys: set<string>)
  {
    && |order| == |keys|
    && (forall i, j :: 0 <= i < j < |order| ==> order[i] != order[j])
    && (forall k :: k in keys <==> k in order)
  }

  /** The description line of one tool: `fmt.Sprintf("%s: %s", name, tool.Description())`. */
  function ToolLine(name: string, tool: Tools.Tool): string
  {
    name + ": " + tool.Description()
  }

  /** The description lines of the tools named in `order`, in that order. */
  function ToolLines(tools: map<string, Tools.Tool>, order: seq<string>): seq<string>
    requires forall i :: 0 <= i < |order| ==> order[i] in tools
    decreases |order|
  {
    if |order| == 0 then []
    else ToolLines(tools, order[..|order| - 1]) + [ToolLine(order[|order| - 1], tools[order[|order| - 1]])]
  }

  lemma ToolLinesAppend(tools: map<string, Tools.Tool>, order: seq<string>, name: string)
    requires forall i :: 0 <= i < |order| ==> order[i] in tools
    requires name in tools
    ensures ToolLines(tools, order + [name]) == ToolLines(tools, order) + [ToolLine(name, tools[name])]
  {
    assert (order + [name])[..|order|] == order;
  }

  /** `s` is a possible result of getToolNames: the names, in some map order, joined by ", ". */
  ghost predicate IsToolNames(s: string, tools: map<string, Tools.Tool>)
  {
    exists order :: Enumerates(order, tools.Keys) && s == Strings.Join(", ", order)
  }

  /** `s` is a possible result of getToolsString: one "name: description" line per tool, in some
      map order, joined by newlines. */
  ghost predicate IsToolsString(s: string, tools: map<string, Tools.Tool>)
  {
    exists order :: Enumerates(order, tools.Keys) && (forall i :: 0 <= i < |order| ==> order[i] in tools)
      && s == Strings.Join("\n", ToolLines(tools, order))
  }

  /** With no tool registered both texts are empty; with a single one they are its name and its
      line, whatever order the map is ranged in. */
  lemma ToolTextsOfSmallRegistry(tools: map<string, Tools.Tool>, names: string, lines: string)
    requires IsToolNames(names, tools) && IsToolsString(lines, tools)
    ensures tools == map[] ==> names == "" && lines == ""
    ensures forall n :: tools.Keys == {n} ==> names == n && lines == ToolLine(n, tools[n])
  {
    var order :| Enumerates(order, tools.Keys) && names == Strings.Join(", ", order);
    var order' :| Enumerates(order', tools.Keys) && (forall i :: 0 <= i < |order'| ==> order'[i] in tools)
      && lines == Strings.Join("\n", ToolLines(tools, order'));
    forall n | tools.Keys == {n} ensures names == n && lines == ToolLine(n, tools[n]) {
      EnumeratesSingleton(order, n);
      EnumeratesSingleton(order', n);
      assert ToolLines(tools, order') == ToolLines(tools, []) + [ToolLine(n, tools[n])];
    }
  }

  lemma EnumeratesSingleton(order: seq<string>, n: string)
    requires Enumerates(order, {n})
    ensures order == [n]
  {
    assert order[0] in order;
  }

  /** What one GetResponse does: the answer or error it returns, the history it leaves, the
      histories it sent to the model in order, and the tool it ran with its input, if any. */
  datatype Outcome = Outcome(
    answer: Result<string, string>,
    history: seq<Message>,
    calls: seq<seq<Message>>,
    invoked: Option<(string, string)>)

  /** The observation recorded after a tool run. */
  function Observation(toolName: string, result: Result<Tools.ToolResult, string>): string
  {
    match result
    case Failure(err) => "Tool " + toolName + " failed: " + err
    case Success(r) => "Tool " + toolName + " used. Observation: " + r.returnDisplay
  }

  /** The last step of every successful turn: the reply is recorded as the AI's turn and returned. */
  function Finish(history: seq<Message>, windowSize: nat, response: string,
                  calls: seq<seq<Message>>, invoked: Option<(string, string)>): Outcome
  {
    Outcome(Success(response), Memory.Added(history, TextMessage("AI", response), windowSize), calls, invoked)
  }

  /** The tool and input a reply asks for: the groups of its leftmost directive, trimmed. */
  function Requested(response: string): Option<(string, string)>
  {
    match Directive.FindDirective(response)
    case None => None
    case Some(m) => Some((Strings.TrimSpace(m.tool), Strings.TrimSpace(m.input)))
  }

  /** GetResponse on memory `history`, with the model's generation oracle and system prompt and
      the registry `tools`. */
  function Respond(history: seq<Message>, windowSize: nat,
                   generate: (string, seq<Message>) -> Result<string, string>, prompt: string,
                   tools: map<string, Tools.Tool>): Outcome
  {
    match generate(prompt, history)
    case Failure(err) => Outcome(Failure("error generating response: " + err), history, [history], None)
    case Success(response) =>
      match Requested(response)
      case None => Finish(history, windowSize, response, [history], None)
      case Some(request) => Dispatch(history, windowSize, generate, prompt, tools, response, request.0, request.1)
  }

  /** The rest of the turn once the first reply asked for `toolName` with `toolInput`. */
  function Dispatch(history: seq<Message>, windowSize: nat,
                    generate: (string, seq<Message>) -> Result<string, string>, prompt: string,
                    tools: map<string, Tools.Tool>, response: string, toolName: string, toolInput: string): Outcome
  {
    if toolName !in tools then Finish(history, windowSize, response, [history], None)
    else
      var result := tools[toolName].ARun(toolInput);
      var observed := Memory.Added(history, TextMessage("AI", Observation(toolName, result)), windowSize);
      var invoked := Some((toolName, toolInput));
      if result.Failure? then Finish(observed, windowSize, response, [history], invoked)
      else
        match generate(prompt, observed)
        case Failure(err) =>
          Outcome(Failure("error generating follow-up response: " + err), observed, [history, observed], invoked)
        case Success(followUp) => Finish(observed, windowSize, followUp, [history, observed], invoked)
  }

  /** The request of a reply is read off its leftmost directive: none when no position matches,
      otherwise the directive's tool name, which trimming leaves unchanged, and its trimmed input. */
  lemma RequestedIsLeftmostDirective(response: string)
    ensures Requested(response).None? <==> forall q: nat, t, x :: !Directive.IsMatchAt(response, q, t, x)
    ensures Requested(response).Some? ==>
      var m := Directive.FindDirective(response).value;
      && Directive.IsMatchAt(response, m.pos, m.tool, m.input)
      && (forall q: nat, t, x :: q < m.pos ==> !Directive.IsMatchAt(response, q, t, x))
      && Requested(response).value == (m.tool, Strings.TrimSpace(m.input))
  {
    Directive.FindDirectiveIsLeftmost(response);
    if Directive.FindDirective(response).Some? {
      Directive.ToolNameIsTrimmed(response, Directive.FindDirective(response).value);
    }
  }

  /** Every message an AI text turn. */
  predicate AllAI(messages: seq<Message>)
  {
    forall k :: 0 <= k < |messages| ==>
      && messages[k].role == "AI"
      && |messages[k].contents| == 1
      && messages[k].contents[0].kind == "text"
  }

  /** Two AddMessage calls on a history within the window keep the last `windowSize` entries of
      the history followed by both messages. */
  lemma AddedTwice(history: seq<Message>, a: Message, b: Message, windowSize: nat)
    requires |history| <= windowSize
    ensures Memory.Added(Memory.Added(history, a, windowSize), b, windowSize)
         == Window.LastN(history + [a, b], windowSize)
  {
    Memory.AddedIsLastN(history, a, windowSize);
    Memory.AddedKeepsWindow(history, a, windowSize);
    Memory.AddedIsLastN(Memory.Added(history, a, windowSize), b, windowSize);
    Window.LastNAppend(history + [a], b, windowSize);
    assert history + [a] + [b] == history + [a, b];
  }

  lemma DispatchAppends(history: seq<Message>, windowSize: nat,
                        generate: (string, seq<Message>) -> Result<string, string>, prompt: string,
                        tools: map<string, Tools.Tool>, response: string, toolName: string, toolInput: string)
    returns (added: seq<Message>)
    requires |history| <= windowSize
    ensures var o := Dispatch(history, windowSize, generate, prompt, tools, response, toolName, toolInput);
      && o.history == Window.LastN(history + added, windowSize)
      && |added| <= 2 && AllAI(added)
      && (o.answer.Success? ==> |added| > 0 && added[|added| - 1] == TextMessage("AI", o.answer.value))
      && (o.answer.Failure? ==> |added| == 1 && |o.calls| == 2)
  {
    var reply := TextMessage("AI", response);
    if toolName !in tools {
      added := [reply];
      Memory.AddedIsLastN(history, reply, windowSize);
    } else {
      var result := tools[toolName].ARun(toolInput);
      var note := TextMessage("AI", Observation(toolName, result));
      var observed := Memory.Added(history, note, windowSize);
      if result.Failure? {
        added := [note, reply];
        AddedTwice(history, note, reply, windowSize);
      } else if generate(prompt, observed).Failure? {
        added := [note];
        Memory.AddedIsLastN(history, note, windowSize);
      } else {
        var last := TextMessage("AI", generate(prompt, observed).value);
        added := [note, last];
        AddedTwice(history, note, last, windowSize);
      }
    }
  }

  /** The effect of one turn on a memory within its window: a few AI turns (never the user's; the
      caller records that) appended and the window kept, as if the history were the last
      `windowSize` entries of all turns so far. A successful turn ends with its answer; a failed
      one added at most the observation. */
  lemma RespondAppends(history: seq<Message>, windowSize: nat,
                       generate: (string, seq<Message>) -> Result<string, string>, prompt: string,
                       tools: map<string, Tools.Tool>)
    returns (added: seq<Message>)
    requires |history| <= windowSize
    ensures var o := Respond(history, windowSize, generate, prompt, tools);
      && o.history == Window.LastN(history + added, windowSize)
      && |added| <= 2 && AllAI(added)
      && (o.answer.Success? ==> |added| > 0 && added[|added| - 1] == TextMessage("AI", o.answer.value))
      && (o.answer.Failure? ==> |added| <= 1 && |o.calls| == |added| + 1)
  {
    var o := Respond(history, windowSize, generate, prompt, tools);
    match generate(prompt, history)
    case Failure(_) =>
      added := [];
      assert history + added == history;
    case Success(response) =>
      match Requested(response)
      case None =>
        added := [TextMessage("AI", response)];
        Memory.AddedIsLastN(history, TextMessage("AI", response), windowSize);
      case Some(request) =>
        added := DispatchAppends(history, windowSize, generate, prompt, tools, response, request.0, request.1);
  }

  /** If the first model call fails, the error is returned and the memory is left as it was. */
  lemma FirstCallFailureKeepsMemory(history: seq<Message>, windowSize: nat,
                                    generate: (string, seq<Message>) -> Result<string, string>, prompt: string,
                                    tools: map<string, Tools.Tool>)
    requires generate(prompt, history).Failure?
    ensures var o := Respond(history, windowSize, generate, prompt, tools);
      o.answer == Failure("error generating response: " + generate(prompt, history).error)
      && o.history == history && o.invoked == None && |o.calls| == 1
  {
  }

  /** A tool runs only when the first reply requests a registered tool, and then with the
      requested input; the model is asked a second time only after the tool succeeded, on the
      history that holds the observation, and never a third time. */
  lemma ToolRunsOnlyWhenRequested(history: seq<Message>, windowSize: nat,
                                  generate: (string, seq<Message>) -> Result<string, string>, prompt: string,
                                  tools: map<string, Tools.Tool>)
    ensures var o := Respond(history, windowSize, generate, prompt, tools);
      && 1 <= |o.calls| <= 2 && o.calls[0] == history
      && (o.invoked.Some? <==>
            && generate(prompt, history).Success?
            && Requested(generate(prompt, history).value).Some?
            && Requested(generate(prompt, history).value).value.0 in tools)
      && (o.invoked.Some? ==> o.invoked == Requested(generate(prompt, history).value))
      && (|o.calls| == 2 <==> o.invoked.Some? && tools[o.invoked.value.0].ARun(o.invoked.value.1).Success?)
      && (|o.calls| == 2 ==>
            o.calls[1] == Memory.Added(history, TextMessage("AI", Observation(o.invoked.value.0,
                                         tools[o.invoked.value.0].ARun(o.invoked.value.1))), windowSize))
  {
    match generate(prompt, history)
    case Failure(_) =>
    case Success(response) =>
      match Requested(response)
      case None =>
      case Some(request) =>
        var o := Dispatch(history, windowSize, generate, prompt, tools, response, request.0, request.1);
        if request.0 in tools {
          var result := tools[request.0].ARun(request.1);
          assert o.invoked == Some(request);
          assert |o.calls| == 2 <==> result.Success?;
        }
  }

  /** A reply requesting a tool that is not registered is the answer as it stands, directive and
      all: no tool runs and exactly that reply is recorded. */
  lemma UnknownToolAnswersVerbatim(history: seq<Message>, windowSize: nat,
                                   generate: (string, seq<Message>) -> Result<string, string>, prompt: string,
                                   tools: map<string, Tools.Tool>)
    requires generate(prompt, history).Success?
    requires var r := generate(prompt, history).value;
      Requested(r).Some? && Requested(r).value.0 !in tools
    ensures var o := Respond(history, windowSize, generate, prompt, tools);
      var r := generate(prompt, history).value;
      && o.answer == Success(r) && o.invoked == None && |o.calls| == 1
      && o.history == Memory.Added(history, TextMessage("AI", r), windowSize)
  {
  }

  /** When the tool fails, its failure is recorded and then the first reply, which still holds
      the directive, is recorded and returned: the model is not asked again. */
  lemma ToolFailureReturnsDirective(history: seq<Message>, windowSize: nat,
                                    generate: (string, seq<Message>) -> Result<string, string>, prompt: string,
                                    tools: map<string, Tools.Tool>)
    requires generate(prompt, history).Success?
    requires var o := Respond(history, windowSize, generate, prompt, tools);
      o.invoked.Some? && tools[o.invoked.value.0].ARun(o.invoked.value.1).Failure?
    ensures var o := Respond(history, windowSize, generate, prompt, tools);
      var r := generate(prompt, history).value;
      var name := o.invoked.value.0;
      && o.answer == Success(r)
      && Directive.FindDirective(r).Some? && Directive.FindDirective(r).value.tool == name
      && |o.calls| == 1
      && o.history == Memory.Added(Memory.Added(history,
           TextMessage("AI", "Tool " + name + " failed: " + tools[name].ARun(o.invoked.value.1).error), windowSize),
           TextMessage("AI", r), windowSize)
  {
    var r := generate(prompt, history).value;
    RequestedIsLeftmostDirective(r);
  }

  /** After a successful tool run the follow-up reply is the answer as it stands: it is not
      searched for another directive, even when it holds one. */
  lemma FollowUpIsNotScanned(history: seq<Message>, windowSize: nat,
                             generate: (string, seq<Message>) -> Result<string, string>, prompt: string,
                             tools: map<string, Tools.Tool>)
    requires var o := Respond(history, windowSize, generate, prompt, tools);
      |o.calls| == 2 && generate(prompt, o.calls[1]).Success?
    ensures var o := Respond(history, windowSize, generate, prompt, tools);
      var followUp := generate(prompt, o.calls[1]).value;
      && o.answer == Success(followUp)
      && o.history == Memory.Added(o.calls[1], TextMessage("AI", followUp), windowSize)
  {
    var r := generate(prompt, history).value;
    var request := Requested(r).value;
    assert Respond(history, windowSize, generate, prompt, tools)
        == Dispatch(history, windowSize, generate, prompt, tools, r, request.0, request.1);
  }

  /** A registered tool that keeps BaseTool's ARun always takes the failure branch, and the
      recorded observation carries the BaseTool error. */
  lemma BaseToolTakesFailureBranch(history: seq<Message>, windowSize: nat,
                                   generate: (string, seq<Message>) -> Result<string, string>, prompt: string,
                                   tools: map<string, Tools.Tool>, name: string)
    requires generate(prompt, history).Success?
    requires Requested(generate(prompt, history).value).Some?
    requires Requested(generate(prompt, history).value).value.0 == name
    requires name in tools && tools[name].arun.None?
    ensures var o := Respond(history, windowSize, generate, prompt, tools);
      && o.answer == Success(generate(prompt, history).value)
      && |o.calls| == 1
      && o.history == Memory.Added(Memory.Added(history,
           TextMessage("AI", "Tool " + name + " failed: tool " + tools[name].Name() + " does not support async execution"),
           windowSize), TextMessage("AI", generate(prompt, history).value), windowSize)
  {
    var r := generate(prompt, history).value;
    var input := Requested(r).value.1;
    var result := tools[name].ARun(input);
    Tools.DefaultARunFails(tools[name].base, input);
    assert tools[name] == Tools.Tool(tools[name].base, None);
    assert result == Failure("tool " + tools[name].Name() + " does not support async execution");
    assert Observation(name, result)
        == "Tool " + name + " failed: tool " + tools[name].Name() + " does not support async execution";
    assert Respond(history, windowSize, generate, prompt, tools)
        == Dispatch(history, windowSize, generate, prompt, tools, r, name, input);
  }

  /** A reply without a directive is the final answer as it stands: it is returned and recorded
      once, no tool runs, and the model is asked only once. */
  lemma NoDirectiveVerbatim(history: seq<Message>, windowSize: nat,
                            generate: (string, seq<Message>) -> Result<string, string>, prompt: string,
                            tools: map<string, Tools.Tool>)
    requires generate(prompt, history).Success?
    requires Directive.FindDirective(generate(prompt, history).value).None?
    ensures var o := Respond(history, windowSize, generate, prompt, tools);
      var r := generate(prompt, history).value;
      && o.answer == Success(r) && o.invoked == None && o.calls == [history]
      && o.history == Memory.Added(history, TextMessage("AI", r), windowSize)
  {
  }

  /** When the follow-up call fails, its error is returned wrapped, and the memory keeps the
      observation of the successful tool run as its only new entry. */
  lemma FollowUpFailureKeepsObservation(history: seq<Message>, windowSize: nat,
                                        generate: (string, seq<Message>) -> Result<string, string>, prompt: string,
                                        tools: map<string, Tools.Tool>)
    requires var o := Respond(history, windowSize, generate, prompt, tools);
      o.answer.Failure? && |o.calls| == 2
    ensures var o := Respond(history, windowSize, generate, prompt, tools);
      && o.invoked.Some? && o.invoked.value.0 in tools
      && tools[o.invoked.value.0].ARun(o.invoked.value.1).Success?
      && o.history == o.calls[1]
      && o.history == Memory.Added(history, TextMessage("AI", "Tool " + o.invoked.value.0 + " used. Observation: "
           + tools[o.invoked.value.0].ARun(o.invoked.value.1).value.returnDisplay), windowSize)
      && generate(prompt, o.history).Failure?
      && o.answer == Failure("error generating follow-up response: " + generate(prompt, o.history).error)
  {
    var r := generate(prompt, history).value;
    var request := Requested(r).value;
    assert Respond(history, windowSize, generate, prompt, tools)
        == Dispatch(history, windowSize, generate, prompt, tools, r, request.0, request.1);
  }

  class Agent {
    const model: Models.LLMModel
    const memory: Memory.ConversationMemory
    const tools: map<string, Tools.Tool>

    ghost predicate Valid()
      reads this, memory
    {
      memory.Valid()
    }

    /** NewAgent: the registry from the list, then exactly one SetSystemPrompt with the template
        filled in (`format`, standing for `fmt.Sprintf` on the prompt template) with the tools
        text and the names text. */
    constructor (model: Models.LLMModel, memory: Memory.ConversationMemory, toolList: seq<Tools.Tool>,
                 format: (string, string) -> string)
      requires memory.Valid()
      modifies model
      ensures Valid()
      ensures this.model == model && this.memory == memory && tools == Registry(toolList)
      ensures exists toolsString, toolNames ::
        && IsToolsString(toolsString, tools) && IsToolNames(toolNames, tools)
        && model.promptsSet == old(model.promptsSet) + [format(toolsString, toolNames)]
        && model.systemPrompt == format(toolsString, toolNames)
    {
      var toolsMap := map[];
      for i := 0 to |toolList|
        invariant toolsMap == Registry(toolList[..i])
      {
        assert toolList[..i + 1][..i] == toolList[..i];
        toolsMap := toolsMap[toolList[i].Name() := toolList[i]];
      }
      assert toolList[..|toolList|] == toolList;
      this.model := model;
      this.memory := memory;
      tools := toolsMap;
      new;
      var toolsString := GetToolsString();
      var toolNames := GetToolNames();
      model.SetSystemPrompt(format(toolsString, toolNames));
    }

    /** getToolNames: the registered names in map order, joined by ", ". */
    method GetToolNames() returns (names: string)
      ensures IsToolNames(names, tools)
    {
      var order := [];
      var rest := tools.Keys;
      while rest != {}
        invariant |order| + |rest| == |tools.Keys|
        invariant forall i, j :: 0 <= i < j < |order| ==> order[i] != order[j]
        invariant forall k :: k in tools.Keys <==> k in order || k in rest
        invariant forall k :: k in rest ==> k !in order
        decreases |rest|
      {
        var name :| name in rest;
        order := order + [name];
        rest := rest - {name};
      }
      names := Strings.Join(", ", order);
      assert Enumerates(order, tools.Keys);
    }

    /** getToolsString: one "name: description" line per registered tool in map order, joined
        by newlines. */
    method GetToolsString() returns (toolsString: string)
      ensures IsToolsString(toolsString, tools)
    {
      var order := [];
      var lines := [];
      var rest := tools.Keys;
      while rest != {}
        invariant |order| + |rest| == |tools.Keys|
        invariant forall i, j :: 0 <= i < j < |order| ==> order[i] != order[j]
        invariant forall k :: k in tools.Keys <==> k in order || k in rest
        invariant forall k :: k in rest ==> k !in order
        invariant forall i :: 0 <= i < |order| ==> order[i] in tools
        invariant lines == ToolLines(tools, order)
        decreases |rest|
      {
        var name :| name in rest;
        ToolLinesAppend(tools, order, name);
        lines := lines + [ToolLine(name, tools[name])];
        order := order + [name];
        rest := rest - {name};
      }
      toolsString := Strings.Join("\n", lines);
      assert Enumerates(order, tools.Keys);
    }

    method AddMessage(message: Message)
      requires Valid()
      modifies memory`history
      ensures Valid()
      ensures memory.history == Memory.Added(old(memory.history), message, memory.windowSize)
    {
      memory.AddMessage(message);
    }

    /** GetResponse: the memory and the answer are those of Respond on the history the caller
        left in memory. */
    method GetResponse() returns (answer: Result<string, string>)
      requires Valid()
      modifies memory`history
      ensures Valid()
      ensures var o := Respond(old(memory.history), memory.windowSize, model.generate, model.systemPrompt, tools);
        answer == o.answer && memory.history == o.history
    {
      var messages := memory.GetHistory();
      var first := model.GenerateWithHistoryAsync(messages);
      if first.Failure? {
        return Failure("error generating response: " + first.error);
      }
      var response := first.value;
      var matches := Directive.FindDirective(response);
      if matches.Some? {
        var toolName := Strings.TrimSpace(matches.value.tool);
        var toolInput := Strings.TrimSpace(matches.value.input);
        if toolName in tools {
          var tool := tools[toolName];
          var toolResult := tool.ARun(toolInput);
          if toolResult.Failure? {
            var observation := "Tool " + toolName + " failed: " + toolResult.error;
            AddMessage(TextMessage("AI", observation));
          } else {
            var observation := "Tool " + toolName + " used. Observation: " + toolResult.value.returnDisplay;
            AddMessage(TextMessage("AI", observation));
            var history := memory.GetHistory();
            var second := model.GenerateWithHistoryAsync(history);
            if second.Failure? {
              return Failure("error generating follow-up response: " + second.error);
            }
            response := second.value;
          }
        }
      }
      AddMessage(TextMessage("AI", response));
      return Success(response);
    }
  }
}
