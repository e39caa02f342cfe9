/** The Python agent (src/agent.py): a dict of tools by name, and `get_response`, which records the
    user's turn, prompts the model with the whole conversation, runs the tool the reply asks for
    (if it is registered), prompts once more with the updated conversation, and records the AI's
    turns. Errors are exceptions: they leave the method at once. */
module AgentPy {
  import opened Wrappers
  import Strings
  import Window
  import Directive
  import PyTools
  import MemoryPy

  /** A Python dict from tool name to tool: its keys in insertion order, and its entries. */
  datatype Registry = Registry(keys: seq<string>, entries: map<string, PyTools.Tool>)

  /** `{tool.name: tool for tool in tools}`: a name keeps the place of its first occurrence, and
      its value is replaced by every later tool with the same name. */
  function BuildRegistry(tools: seq<PyTools.Tool>): Registry
    decreases |tools|
  {
    if |tools| == 0 then Registry([], map[])
    else
      var r := BuildRegistry(tools[..|tools| - 1]);
      var t := tools[|tools| - 1];
      Registry(if t.name in r.entries then r.keys else r.keys + [t.name], r.entries[t.name := t])
  }

  /** The names of the tools, in list order. */
  function Names(tools: seq<PyTools.Tool>): (names: seq<string>)
    ensures |names| == |tools| && forall i :: 0 <= i < |tools| ==> names[i] == tools[i].name
    decreases |tools|
  {
    if |tools| == 0 then [] else Names(tools[..|tools| - 1]) + [tools[|tools| - 1].name]
  }

  /** The position of the first occurrence of `name`. */
  function IndexOf(names: seq<string>, name: string): (i: nat)
    requires name in names
    ensures i < |names| && names[i] == name && name !in names[..i]
    decreases |names|
  {
    if names[0] == name then 0
    else
      assert names == [names[0]] + names[1..];
      1 + IndexOf(names[1..], name)
  }

  lemma {:induction false} IndexOfAppend(names: seq<string>, x: string, name: string)
    requires name in names
    ensures IndexOf(names + [x], name) == IndexOf(names, name)
    decreases |names|
  {
    if names[0] != name {
      assert (names + [x])[1..] == names[1..] + [x];
      IndexOfAppend(names[1..], x, name);
    }
  }

  /** A well-formed dict: keys listed once each, exactly the keys of the entries, and each tool
      stored under its own name. */
  ghost predicate WellFormed(r: Registry)
  {
    && (forall i, j :: 0 <= i < j < |r.keys| ==> r.keys[i] != r.keys[j])
    && (forall k :: k in r.entries <==> k in r.keys)
    && (forall k :: k in r.entries ==> r.entries[k].name == k)
  }

  /** The dict comprehension is a well-formed dict whose keys are exactly the names of the list. */
  lemma {:induction false} BuildRegistryKeys(tools: seq<PyTools.Tool>)
    ensures WellFormed(BuildRegistry(tools))
    ensures forall k :: k in BuildRegistry(tools).entries <==> k in Names(tools)
    decreases |tools|
  {
    if |tools| > 0 {
      var init := tools[..|tools| - 1];
      BuildRegistryKeys(init);
      assert Names(tools) == Names(init) + [tools[|tools| - 1].name];
    }
  }

  /** The keys are ordered by the first occurrence of each name in the list: of two keys, the
      earlier one first appears earlier. */
  lemma {:induction false} BuildRegistryFirstOccurrence(tools: seq<PyTools.Tool>, i: nat, j: nat)
    requires i < j < |BuildRegistry(tools).keys|
    ensures BuildRegistry(tools).keys[i] in Names(tools) && BuildRegistry(tools).keys[j] in Names(tools)
    ensures IndexOf(Names(tools), BuildRegistry(tools).keys[i]) < IndexOf(Names(tools), BuildRegistry(tools).keys[j])
    decreases |tools|
  {
    var init := tools[..|tools| - 1];
    var t := tools[|tools| - 1];
    var r0 := BuildRegistry(init);
    var r := BuildRegistry(tools);
    BuildRegistryKeys(init);
    var names0 := Names(init);
    var names := Names(tools);
    assert names == names0 + [t.name];
    assert r.keys[i] == r0.keys[i] && r0.keys[i] in r0.entries;
    IndexOfAppend(names0, t.name, r.keys[i]);
    if j < |r0.keys| {
      BuildRegistryFirstOccurrence(init, i, j);
      assert r.keys[j] == r0.keys[j] && r0.keys[j] in r0.entries;
      IndexOfAppend(names0, t.name, r.keys[j]);
    } else {
      assert r.keys[j] == t.name && t.name !in names0;
      assert names[..|names0|] == names0;
    }
  }

  /** Each name is bound to the last tool of the list that has it: the returned position. */
  lemma {:induction false} BuildRegistryLastWins(tools: seq<PyTools.Tool>, k: string) returns (i: nat)
    requires k in BuildRegistry(tools).entries
    ensures i < |tools| && tools[i] == BuildRegistry(tools).entries[k]
    ensures forall j :: i < j < |tools| ==> tools[j].name != k
    decreases |tools|
  {
    var init := tools[..|tools| - 1];
    var t := tools[|tools| - 1];
    if k == t.name {
      i := |tools| - 1;
    } else {
      i := BuildRegistryLastWins(init, k);
      assert tools[i] == init[i];
      forall j | i < j < |tools| ensures tools[j].name != k {
        if j < |init| {
          assert tools[j] == init[j];
        }
      }
    }
  }

  /** When no two tools share a name, the dict keeps the list: its keys are the names in list
      order and each name is bound to its tool. */
  lemma {:induction false} DistinctNamesKeepList(tools: seq<PyTools.Tool>)
    requires forall i, j :: 0 <= i < j < |tools| ==> tools[i].name != tools[j].name
    ensures BuildRegistry(tools).keys == Names(tools)
    ensures forall i :: 0 <= i < |tools| ==>
      (tools[i].name in BuildRegistry(tools).entries && BuildRegistry(tools).entries[tools[i].name] == tools[i])
    decreases |tools|
  {
    if |tools| > 0 {
      var init := tools[..|tools| - 1];
      var t := tools[|tools| - 1];
      var r0 := BuildRegistry(init);
      var r := BuildRegistry(tools);
      DistinctNamesKeepList(init);
      BuildRegistryKeys(init);
      forall i | 0 <= i < |init| ensures Names(init)[i] != t.name {
        assert init[i] == tools[i];
      }
      assert t.name !in r0.entries;
      assert r == Registry(r0.keys + [t.name], r0.entries[t.name := t]);
      forall i | 0 <= i < |tools|
        ensures tools[i].name in r.entries && r.entries[tools[i].name] == tools[i]
      {
        if i < |init| {
          assert tools[i] == init[i];
        }
      }
    }
  }

  /** The lines of `_get_tools_string`: `f'{tool.name}: {tool.description}'` for the values of the
      dict, in key order. */
  function ToolLines(r: Registry, keys: seq<string>): (lines: seq<string>)
    requires forall i :: 0 <= i < |keys| ==> keys[i] in r.entries
    ensures |lines| == |keys|
    ensures forall i :: 0 <= i < |keys| ==>
      lines[i] == r.entries[keys[i]].name + ": " + r.entries[keys[i]].description
    decreases |keys|
  {
    if |keys| == 0 then []
    else
      var t := r.entries[keys[|keys| - 1]];
      ToolLines(r, keys[..|keys| - 1]) + [t.name + ": " + t.description]
  }

  /** `_get_tools_string`. */
  function ToolsString(r: Registry): string
    requires WellFormed(r)
  {
    Strings.Join("\n", ToolLines(r, r.keys))
  }

  /** With distinct names, `_get_tools_string` lists every tool of the list, in list order, as
      "name: description". */
  lemma ToolsStringFollowsList(tools: seq<PyTools.Tool>) returns (lines: seq<string>)
    requires forall i, j :: 0 <= i < j < |tools| ==> tools[i].name != tools[j].name
    ensures WellFormed(BuildRegistry(tools))
    ensures |lines| == |tools| && forall i :: 0 <= i < |tools| ==> lines[i] == tools[i].name + ": " + tools[i].description
    ensures ToolsString(BuildRegistry(tools)) == Strings.Join("\n", lines)
  {
    BuildRegistryKeys(tools);
    DistinctNamesKeepList(tools);
    var r := BuildRegistry(tools);
    lines := ToolLines(r, r.keys);
    forall i | 0 <= i < |tools| ensures lines[i] == tools[i].name + ": " + tools[i].description {
      assert r.keys[i] == tools[i].name;
    }
  }

  /** The f-string prompt of `get_response`. */
  function Prompt(template: string, toolsString: string, history: string, author: string, message: string): string
  {
    template + "\n\nTOOLS:\n------\n" + toolsString + "\n\nPrevious conversation history:\n" + history
      + "\n\nNew input: " + author + ": " + message + "\nFinal Answer:"
  }

  /** The exceptions that can leave `get_response`: one raised by the model client, or one raised
      by a tool's `arun`. */
  datatype Raised = ModelRaised(message: string) | ToolRaised(exception: PyTools.Exception)

  /** What one `get_response` does: its return value or exception, the history it leaves, and
      the prompts it sent, in order. */
  datatype Outcome = Outcome(answer: Result<string, Raised>, history: seq<string>, prompts: seq<string>)

  /** `get_response(author, message)` on memory `history` with window `windowSize`, the model
      oracle `generate`, the prompt template and the tools text `toolsString`. */
  function Respond(history: seq<string>, windowSize: nat, generate: string -> Result<string, string>,
                   template: string, toolsString: string, tools: Registry, author: string, message: string): Outcome
  {
    var withUser := Window.LastN(history + [MemoryPy.Entry(author, message)], windowSize);
    var prompt := Prompt(template, toolsString, Strings.Join("\n", withUser), author, message);
    match generate(prompt)
    case Failure(err) => Outcome(Failure(ModelRaised(err)), withUser, [prompt])
    case Success(response) =>
      match Directive.FindDirective(response)
      case None => Outcome(Success(response), Window.LastN(withUser + [MemoryPy.Entry("AI", response)], windowSize), [prompt])
      case Some(m) =>
        if m.tool !in tools.entries then
          Outcome(Success(response), Window.LastN(withUser + [MemoryPy.Entry("AI", response)], windowSize), [prompt])
        else
          match tools.entries[m.tool].ARun(m.input)
          case Failure(e) => Outcome(Failure(ToolRaised(e)), withUser, [prompt])
          case Success(result) =>
            var observation := "Tool " + m.tool + " used. Observation: " + result.returnDisplay;
            var observed := Window.LastN(withUser + [MemoryPy.Entry("AI", observation)], windowSize);
            var prompt2 := Prompt(template, toolsString, Strings.Join("\n", observed), author, message);
            match generate(prompt2)
            case Failure(err) => Outcome(Failure(ModelRaised(err)), observed, [prompt, prompt2])
            case Success(followUp) =>
              Outcome(Success(followUp), Window.LastN(observed + [MemoryPy.Entry("AI", followUp)], windowSize), [prompt, prompt2])
  }

  /** The turn is recorded before the model is called, so it survives every failure: the history
      left is the window of the earlier turns, the user's turn, and up to two "AI: ..." entries, the
      last of which is the answer when there is one; an exception leaves at most the user's turn
      and the observation. */
  lemma {:induction false} RespondRecordsUserFirst(history: seq<string>, windowSize: nat,
                                                  generate: string -> Result<string, string>, template: string,
                                                  toolsString: string, tools: Registry, author: string, message: string)
    returns (added: seq<string>)
    ensures var o := Respond(history, windowSize, generate, template, toolsString, tools, author, message);
      && o.history == Window.LastN(history + [MemoryPy.Entry(author, message)] + added, windowSize)
      && |added| <= 2
      && (forall k :: 0 <= k < |added| ==> |added[k]| >= 4 && added[k][..4] == "AI: ")
      && (o.answer.Success? ==> |added| > 0 && added[|added| - 1] == MemoryPy.Entry("AI", o.answer.value))
      && (o.answer.Failure? ==> |added| == |o.prompts| - 1)
  {
    var user := MemoryPy.Entry(author, message);
    var withUser := Window.LastN(history + [user], windowSize);
    var prompt := Prompt(template, toolsString, Strings.Join("\n", withUser), author, message);
    var o := Respond(history, windowSize, generate, template, toolsString, tools, author, message);
    match generate(prompt)
    case Failure(_) =>
      added := [];
      assert history + [user] + added == history + [user];
    case Success(response) =>
      var reply := MemoryPy.Entry("AI", response);
      var m := Directive.FindDirective(response);
      if m.None? || m.value.tool !in tools.entries {
        added := [reply];
        Window.LastNConcat(history + [user], added, windowSize);
      } else {
        match tools.entries[m.value.tool].ARun(m.value.input)
        case Failure(_) =>
          added := [];
          assert history + [user] + added == history + [user];
        case Success(result) =>
          var note := MemoryPy.Entry("AI", "Tool " + m.value.tool + " used. Observation: " + result.returnDisplay);
          var observed := Window.LastN(withUser + [note], windowSize);
          var prompt2 := Prompt(template, toolsString, Strings.Join("\n", observed), author, message);
          Window.LastNConcat(history + [user], [note], windowSize);
          match generate(prompt2)
          case Failure(_) =>
            added := [note];
          case Success(followUp) =>
            var last := MemoryPy.Entry("AI", followUp);
            added := [note, last];
            Window.LastNAppend(history + [user] + [note], last, windowSize);
            assert history + [user] + [note] + [last] == history + [user] + added;
      }
  }

  /** The first prompt already holds the user's turn as the newest line of the history; after a
      tool ran, the second prompt is rebuilt from the history that also holds the observation,
      and still ends with the same "New input". */
  lemma PromptsShowTheConversation(history: seq<string>, windowSize: nat,
                                   generate: string -> Result<string, string>, template: string,
                                   toolsString: string, tools: Registry, author: string, message: string)
    ensures var o := Respond(history, windowSize, generate, template, toolsString, tools, author, message);
      var withUser := Window.LastN(history + [MemoryPy.Entry(author, message)], windowSize);
      && 1 <= |o.prompts| <= 2
      && o.prompts[0] == Prompt(template, toolsString, Strings.Join("\n", withUser), author, message)
      && (|o.prompts| == 2 ==>
            var response := generate(o.prompts[0]).value;
            var m := Directive.FindDirective(response).value;
            var observation := "Tool " + m.tool + " used. Observation: " + tools.entries[m.tool].ARun(m.input).value.returnDisplay;
            && generate(o.prompts[0]).Success?
            && Directive.FindDirective(response).Some?
            && m.tool in tools.entries && tools.entries[m.tool].ARun(m.input).Success?
            && o.prompts[1] == Prompt(template, toolsString,
                 Strings.Join("\n", Window.LastN(history + [MemoryPy.Entry(author, message), MemoryPy.Entry("AI", observation)], windowSize)),
                 author, message))
  {
    var user := MemoryPy.Entry(author, message);
    var o := Respond(history, windowSize, generate, template, toolsString, tools, author, message);
    if |o.prompts| == 2 {
      var response := generate(o.prompts[0]).value;
      var m := Directive.FindDirective(response).value;
      var observation := "Tool " + m.tool + " used. Observation: " + tools.entries[m.tool].ARun(m.input).value.returnDisplay;
      Window.LastNConcat(history + [user], [MemoryPy.Entry("AI", observation)], windowSize);
      assert history + [user] + [MemoryPy.Entry("AI", observation)] == history + [user, MemoryPy.Entry("AI", observation)];
    }
  }

  /** The tool receives group 2 exactly as matched, without trimming, and an exception it raises
      leaves `get_response` with only the user's turn recorded. */
  lemma ToolRaisingKeepsOnlyUserTurn(history: seq<string>, windowSize: nat,
                                     generate: string -> Result<string, string>, template: string,
                                     toolsString: string, tools: Registry, author: string, message: string)
    requires var withUser := Window.LastN(history + [MemoryPy.Entry(author, message)], windowSize);
      var r := generate(Prompt(template, toolsString, Strings.Join("\n", withUser), author, message));
      && r.Success? && Directive.FindDirective(r.value).Some?
      && Directive.FindDirective(r.value).value.tool in tools.entries
      && tools.entries[Directive.FindDirective(r.value).value.tool].ARun(Directive.FindDirective(r.value).value.input).Failure?
    ensures var o := Respond(history, windowSize, generate, template, toolsString, tools, author, message);
      && o.answer.Failure? && o.answer.error.ToolRaised?
      && o.history == Window.LastN(history + [MemoryPy.Entry(author, message)], windowSize)
      && |o.prompts| == 1
  {
  }

  /** A model call that raises on the first prompt makes get_response raise that exception, with
      only the user's turn recorded. */
  lemma FirstCallRaisingKeepsUserTurn(history: seq<string>, windowSize: nat,
                                      generate: string -> Result<string, string>, template: string,
                                      toolsString: string, tools: Registry, author: string, message: string)
    requires var withUser := Window.LastN(history + [MemoryPy.Entry(author, message)], windowSize);
      generate(Prompt(template, toolsString, Strings.Join("\n", withUser), author, message)).Failure?
    ensures var withUser := Window.LastN(history + [MemoryPy.Entry(author, message)], windowSize);
      var r := generate(Prompt(template, toolsString, Strings.Join("\n", withUser), author, message));
      var o := Respond(history, windowSize, generate, template, toolsString, tools, author, message);
      && o.answer == Failure(ModelRaised(r.error)) && o.history == withUser && |o.prompts| == 1
  {
  }

  /** Without a directive naming a registered tool, the first reply is the answer as it stands:
      one prompt is sent and the reply is recorded after the user's turn. */
  lemma FirstReplyIsAnswer(history: seq<string>, windowSize: nat,
                           generate: string -> Result<string, string>, template: string,
                           toolsString: string, tools: Registry, author: string, message: string)
    requires var withUser := Window.LastN(history + [MemoryPy.Entry(author, message)], windowSize);
      var r := generate(Prompt(template, toolsString, Strings.Join("\n", withUser), author, message));
      && r.Success?
      && (Directive.FindDirective(r.value).None? || Directive.FindDirective(r.value).value.tool !in tools.entries)
    ensures var withUser := Window.LastN(history + [MemoryPy.Entry(author, message)], windowSize);
      var r := generate(Prompt(template, toolsString, Strings.Join("\n", withUser), author, message)).value;
      var o := Respond(history, windowSize, generate, template, toolsString, tools, author, message);
      && o.answer == Success(r) && |o.prompts| == 1
      && o.history == Window.LastN(withUser + [MemoryPy.Entry("AI", r)], windowSize)
  {
  }

  /** After a tool ran, the observation "Tool X used. Observation: ..." is recorded after the
      user's turn and the second prompt shows it; the answer is the reply to that prompt, as it
      stands (it is not searched for another directive), and is recorded after the observation,
      or the exception of that second call, which leaves the observation in memory. */
  lemma FollowUpIsAnswer(history: seq<string>, windowSize: nat,
                         generate: string -> Result<string, string>, template: string,
                         toolsString: string, tools: Registry, author: string, message: string)
    requires |Respond(history, windowSize, generate, template, toolsString, tools, author, message).prompts| == 2
    ensures var withUser := Window.LastN(history + [MemoryPy.Entry(author, message)], windowSize);
      var r := generate(Prompt(template, toolsString, Strings.Join("\n", withUser), author, message));
      && r.Success? && Directive.FindDirective(r.value).Some?
      && Directive.FindDirective(r.value).value.tool in tools.entries
      && tools.entries[Directive.FindDirective(r.value).value.tool].ARun(Directive.FindDirective(r.value).value.input).Success?
    ensures var withUser := Window.LastN(history + [MemoryPy.Entry(author, message)], windowSize);
      var m := Directive.FindDirective(generate(Prompt(template, toolsString, Strings.Join("\n", withUser), author, message)).value).value;
      var display := tools.entries[m.tool].ARun(m.input).value.returnDisplay;
      var observed := Window.LastN(withUser + [MemoryPy.Entry("AI", "Tool " + m.tool + " used. Observation: " + display)], windowSize);
      var o := Respond(history, windowSize, generate, template, toolsString, tools, author, message);
      && o.prompts[1] == Prompt(template, toolsString, Strings.Join("\n", observed), author, message)
      && (generate(o.prompts[1]).Success? ==> o.answer == Success(generate(o.prompts[1]).value))
      && (generate(o.prompts[1]).Failure? ==> o.answer == Failure(ModelRaised(generate(o.prompts[1]).error)))
      && (generate(o.prompts[1]).Failure? ==> o.history == observed)
      && (generate(o.prompts[1]).Success? ==>
            o.history == Window.LastN(observed + [MemoryPy.Entry("AI", generate(o.prompts[1]).value)], windowSize))
  {
    var withUser := Window.LastN(history + [MemoryPy.Entry(author, message)], windowSize);
    var response := generate(Prompt(template, toolsString, Strings.Join("\n", withUser), author, message)).value;
    var m := Directive.FindDirective(response).value;
    var result := tools.entries[m.tool].ARun(m.input).value;
    var observed := Window.LastN(withUser + [MemoryPy.Entry("AI", "Tool " + m.tool + " used. Observation: " + result.returnDisplay)], windowSize);
    assert Respond(history, windowSize, generate, template, toolsString, tools, author, message).prompts[1]
        == Prompt(template, toolsString, Strings.Join("\n", observed), author, message);
  }

  class Agent {
    const generateContent: string -> Result<string, string>
    const memory: MemoryPy.ConversationMemory
    const tools: Registry
    /** The agent prompt template of src/prompts.py, an opaque constant here. */
    const template: string

    ghost predicate Valid()
      reads this, memory
    {
      memory.Valid() && WellFormed(tools)
    }

    /** `__init__`: keeps the client and the memory and builds the tool dict. */
    constructor (generateContent: string -> Result<string, string>, memory: MemoryPy.ConversationMemory,
                 toolList: seq<PyTools.Tool>, template: string)
      requires memory.Valid()
      ensures Valid()
      ensures this.generateContent == generateContent && this.memory == memory
      ensures tools == BuildRegistry(toolList) && this.template == template
    {
      BuildRegistryKeys(toolList);
      this.generateContent := generateContent;
      this.memory := memory;
      tools := BuildRegistry(toolList);
      this.template := template;
    }

    /** `_get_tools_string`. */
    function GetToolsString(): string
      requires WellFormed(tools)
    {
      ToolsString(tools)
    }

    /** `get_response(author, message)`: the history and the result are those of Respond. */
    method GetResponse(author: string, message: string) returns (answer: Result<string, Raised>)
      requires Valid()
      modifies memory`history
      ensures Valid()
      ensures var o := Respond(old(memory.history), memory.windowSize, generateContent, template,
                               ToolsString(tools), tools, author, message);
        answer == o.answer && memory.history == o.history
    {
      memory.AddMessage(author, message);
      var history := memory.GetHistory();
      var toolsString := GetToolsString();
      var prompt := Prompt(template, toolsString, history, author, message);
      var generated := generateContent(prompt);
      if generated.Failure? {
        return Failure(ModelRaised(generated.error));
      }
      var response := generated.value;
      var toolMatch := Directive.FindDirective(response);
      if toolMatch.Some? {
        var toolName := toolMatch.value.tool;
        var toolInput := toolMatch.value.input;
        if toolName in tools.entries {
          var tool := tools.entries[toolName];
          var toolResult := tool.ARun(toolInput);
          if toolResult.Failure? {
            return Failure(ToolRaised(toolResult.error));
          }
          var observation := "Tool " + toolName + " used. Observation: " + toolResult.value.returnDisplay;
          memory.AddMessage("AI", observation);
          history := memory.GetHistory();
          prompt := Prompt(template, toolsString, history, author, message);
          generated := generateContent(prompt);
          if generated.Failure? {
            return Failure(ModelRaised(generated.error));
          }
          response := generated.value;
        }
      }
      memory.AddMessage("AI", response);
      return Success(response);
    }
  }
}
