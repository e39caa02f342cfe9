/** Python's tool base class (src/tools/tools.py; python_deprecated/src/tools/tools.py is the same
    text). A raised exception is a `Failure` carrying the exception; a subclass's `arun` is an
    oracle from the input text to a result or an exception. */
module PyTools {
  import opened Wrappers

  /** The exceptions the core can see raised. */
  datatype Exception = NotImplementedError(message: string) | RaisedByTool(message: string)

  /** The `ToolResult` named tuple: exactly one field. */
  datatype ToolResult = ToolResult(returnDisplay: string)

  datatype Tool = Tool(name: string, description: string, arunOverride: Option<string -> Result<ToolResult, Exception>>)
  {
    /** The base `run`: always raises. */
    function Run(input: string): Result<ToolResult, Exception>
    {
      Failure(NotImplementedError("Tool does not support sync execution."))
    }

    /** `arun`: the subclass's when it has one, otherwise the base class's, which always raises. */
    function ARun(input: string): Result<ToolResult, Exception>
    {
      match arunOverride
      case Some(f) => f(input)
      case None => Failure(NotImplementedError("Tool does not support async execution."))
    }
  }

  /** `Tool.__init__`: stores name and description unchanged, with the base class's methods. */
  function NewTool(name: string, description: string): (tool: Tool)
    ensures tool.name == name && tool.description == description && tool.arunOverride.None?
  {
    Tool(name, description, None)
  }

  /** The base class raises NotImplementedError from both run methods, on every input. */
  lemma BaseToolRaises(name: string, description: string, input: string)
    ensures NewTool(name, description).Run(input).Failure?
    ensures NewTool(name, description).Run(input).error.NotImplementedError?
    ensures NewTool(name, description).ARun(input).Failure?
    ensures NewTool(name, description).ARun(input).error.NotImplementedError?
  {
  }
}
