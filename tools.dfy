/** Go's tool abstraction (src/tools/tools.go). A concrete tool embeds `BaseTool` for its name
    and description and may override `ARun`; the network tools do. Their behaviour is an oracle
    from the input text to a result or an error. */
module Tools {
  import opened Wrappers

  datatype ToolResult = ToolResult(returnDisplay: string)

  datatype BaseTool = BaseTool(name: string, description: string)
  {
    function Name(): string { name }

    function Description(): string { description }

    /** The default synchronous run: no result, always an error naming the tool. */
    function Run(input: string): Result<ToolResult, string>
    {
      Failure("tool " + name + " does not support sync execution")
    }

    /** The default asynchronous run: no result, always an error naming the tool. */
    function ARun(input: string): Result<ToolResult, string>
    {
      Failure("tool " + name + " does not support async execution")
    }
  }

  /** NewBaseTool: the name and the description are kept unchanged. */
  function NewBaseTool(name: string, description: string): (tool: BaseTool)
    ensures tool.Name() == name && tool.Description() == description
  {
    BaseTool(name, description)
  }

  /** A value of the `Tool` interface: the embedded BaseTool and, when the tool overrides it,
      its own ARun. */
  datatype Tool = Tool(base: BaseTool, arun: Option<string -> Result<ToolResult, string>>)
  {
    function Name(): string { base.Name() }

    function Description(): string { base.Description() }

    function Run(input: string): Result<ToolResult, string> { base.Run(input) }

    function ARun(input: string): Result<ToolResult, string>
    {
      match arun
      case Some(f) => f(input)
      case None => base.ARun(input)
    }
  }

  /** The default runs fail for every input, with a message that names the tool. */
  lemma BaseToolRunsFail(tool: BaseTool, input: string)
    ensures tool.Run(input).Failure? && tool.ARun(input).Failure?
    ensures tool.Run(input).error[5..5 + |tool.Name()|] == tool.Name()
    ensures tool.ARun(input).error[5..5 + |tool.Name()|] == tool.Name()
  {
  }

  /** A tool that embeds BaseTool without overriding ARun fails on every input, whatever it was
      asked, with the default asynchronous error. */
  lemma DefaultARunFails(base: BaseTool, input: string)
    ensures Tool(base, None).ARun(input) == Failure("tool " + base.name + " does not support async execution")
  {
  }
}
