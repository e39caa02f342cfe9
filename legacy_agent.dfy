/** The older Python agent (python_deprecated/src/agent.py): its constructor builds the same tool
    dict as the newer one and sets the model's system prompt, once, from the prompt template
    filled with the tools text and the comma-separated tool names. */
module LegacyAgent {
  import Strings
  import PyTools
  import Models
  import LegacyMemory
  import AgentPy

  /** `_get_tool_names`: the dict's keys joined by ", ". */
  function ToolNames(r: AgentPy.Registry): string
  {
    Strings.Join(", ", r.keys)
  }

  /** The names joined by `_get_tool_names` are those of the list, each once. */
  lemma ToolNamesListsEachToolOnce(tools: seq<PyTools.Tool>)
    ensures var keys := AgentPy.BuildRegistry(tools).keys;
      && (forall i, j :: 0 <= i < j < |keys| ==> keys[i] != keys[j])
      && (forall k :: k in keys <==> k in AgentPy.Names(tools))
  {
    AgentPy.BuildRegistryKeys(tools);
  }

  /** With distinct names, the names text is the list's names in list order. */
  lemma ToolNamesFollowList(tools: seq<PyTools.Tool>)
    requires forall i, j :: 0 <= i < j < |tools| ==> tools[i].name != tools[j].name
    ensures ToolNames(AgentPy.BuildRegistry(tools)) == Strings.Join(", ", AgentPy.Names(tools))
  {
    AgentPy.DistinctNamesKeepList(tools);
  }

  class Agent {
    const model: Models.LLMModel
    const memory: LegacyMemory.ConversationMemory
    const tools: AgentPy.Registry

    /** `__init__`: keeps the model and the memory, builds the tool dict and sets the system
        prompt exactly once, to the template `format` filled with the tools text and the names. */
    constructor (model: Models.LLMModel, memory: LegacyMemory.ConversationMemory, toolList: seq<PyTools.Tool>,
                 format: (string, string) -> string)
      modifies model
      ensures this.model == model && this.memory == memory
      ensures tools == AgentPy.BuildRegistry(toolList) && AgentPy.WellFormed(tools)
      ensures model.promptsSet == old(model.promptsSet) + [format(AgentPy.ToolsString(tools), ToolNames(tools))]
      ensures model.systemPrompt == format(AgentPy.ToolsString(tools), ToolNames(tools))
    {
      AgentPy.BuildRegistryKeys(toolList);
      this.model := model;
      this.memory := memory;
      tools := AgentPy.BuildRegistry(toolList);
      new;
      var toolsString := AgentPy.ToolsString(tools);
      var toolNames := ToolNames(tools);
      model.SetSystemPrompt(format(toolsString, toolNames));
    }
  }
}
