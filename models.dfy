/** The `LLMModel` the agents talk to (src/models/llm_model.go, and the Python class of the same
    name). Only what the agents use is kept: a system prompt that `SetSystemPrompt` replaces, and
    generation from a conversation history. Generation is an oracle: a function of the system
    prompt and the history that yields a reply or an error. */
module Models {
  import opened Wrappers
  import opened Messages

  class LLMModel {
    var systemPrompt: string
    /** Every prompt passed to SetSystemPrompt, in order: the record that lets a caller's contract
        say how often, and with what, it set the prompt. */
    ghost var promptsSet: seq<string>
    const generate: (string, seq<Message>) -> Result<string, string>

    constructor (generate: (string, seq<Message>) -> Result<string, string>)
      ensures this.generate == generate && systemPrompt == "" && promptsSet == []
    {
      this.generate := generate;
      systemPrompt := "";
      promptsSet := [];
    }

    method SetSystemPrompt(prompt: string)
      modifies this`systemPrompt, this`promptsSet
      ensures systemPrompt == prompt && promptsSet == old(promptsSet) + [prompt]
    {
      systemPrompt := prompt;
      promptsSet := promptsSet + [prompt];
    }

    /** `GenerateWithHistoryAsync`: the oracle's answer for the current system prompt. */
    method GenerateWithHistoryAsync(messages: seq<Message>) returns (r: Result<string, string>)
      ensures r == generate(systemPrompt, messages)
    {
      r := generate(systemPrompt, messages);
    }
  }
}
