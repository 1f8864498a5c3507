/** The messages the agent returns, the answer taken from them (main.py:341-354)
    and the tool attribution scan (main.py:359-377). */
module Messages {
  import opened Wrappers
  import opened Text

  /** The LangChain message classes the chat layer tells apart. */
  datatype Kind = Human | Ai | ToolResult | System

  /** A message: its class, its content and its `name` attribute, with "" standing
      for a name that is None or empty. */
  datatype Message = Message(kind: Kind, content: string, name: string)

  function HumanMessage(content: string): Message
  {
    Message(Human, content, "")
  }

  function AiMessage(content: string): Message
  {
    Message(Ai, content, "")
  }

  /** The capabilities a chat response can be attributed to. */
  datatype Tool = Calculator | ProductRag | OutletText2Sql {

    /** The `tool_used` string of the response. */
    function Label(): string
    {
      match this
      case Calculator => "Calculator"
      case ProductRag => "Product RAG"
      case OutletText2Sql => "Outlet Text2SQL"
    }
  }

  /** The answer used when the agent returned no AI message. */
  const NoAnswer: string := "I encountered an error processing your request."

  // ----- the last message of a class -----

  /** The index of the last message of class k, if any. */
  function LastOfKind(msgs: seq<Message>, k: Kind): (r: Option<nat>)
    ensures r.Some? ==> r.value < |msgs| && msgs[r.value].kind == k
    ensures r.Some? ==> forall j :: r.value < j < |msgs| ==> msgs[j].kind != k
    ensures r.None? ==> forall j :: 0 <= j < |msgs| ==> msgs[j].kind != k
  {
    if msgs == [] then None
    else if msgs[|msgs| - 1].kind == k then Some(|msgs| - 1)
    else LastOfKind(msgs[..|msgs| - 1], k)
  }

  /** The content of the last message of class k, if any. */
  function LastContentOf(msgs: seq<Message>, k: Kind): Option<string>
  {
    match LastOfKind(msgs, k)
    case Some(i) => Some(msgs[i].content)
    case None => None
  }

  /** The answer of a chat turn: the content of the last AI message, or the fixed
      error sentence. */
  function AnswerOf(msgs: seq<Message>): string
  {
    LastContentOf(msgs, Ai).GetOr(NoAnswer)
  }

  /** The `for m in reversed(msgs): if isinstance(m, K): ...; break` scan. */
  method FindLastContent(msgs: seq<Message>, k: Kind) returns (r: Option<string>)
    ensures r == LastContentOf(msgs, k)
  {
    var i := |msgs|;
    while i > 0
      invariant 0 <= i <= |msgs|
      invariant forall j :: i <= j < |msgs| ==> msgs[j].kind != k
    {
      if msgs[i - 1].kind == k {
        return Some(msgs[i - 1].content);
      }
      i := i - 1;
    }
    return None;
  }

  // ----- tool attribution -----

  /** The capability a tool name stands for: case-insensitive substring tests,
      "calculate" before "product" before "outlet". */
  function Classify(name: string): Option<Tool>
  {
    if name == "" then None
    else
      var lower := Lower(name);
      if Contains(lower, "calculate") then Some(Calculator)
      else if Contains(lower, "product") then Some(ProductRag)
      else if Contains(lower, "outlet") then Some(OutletText2Sql)
      else None
  }

  /** The index of the last message whose name classifies. */
  function LastClassified(msgs: seq<Message>): (r: Option<nat>)
    ensures r.Some? ==> r.value < |msgs| && Classify(msgs[r.value].name).Some?
    ensures r.Some? ==> forall j :: r.value < j < |msgs| ==> Classify(msgs[j].name).None?
    ensures r.None? ==> forall j :: 0 <= j < |msgs| ==> Classify(msgs[j].name).None?
  {
    if msgs == [] then None
    else if Classify(msgs[|msgs| - 1].name).Some? then Some(|msgs| - 1)
    else LastClassified(msgs[..|msgs| - 1])
  }

  /** A `tool_used` value with the `tool_output` recorded with it. */
  datatype Attribution = Attribution(tool: Tool, output: string)

  /** What the attribution scan leaves behind: the class and the content of the
      last message whose name classifies. */
  function Attributed(msgs: seq<Message>): Option<Attribution>
  {
    match LastClassified(msgs)
    case Some(i) => Some(Attribution(Classify(msgs[i].name).value, msgs[i].content))
    case None => None
  }

  /** The scan over every message that overwrites `tool_used` and `tool_output`
      whenever a name classifies: the last classified message wins, and messages
      whose names classify as nothing leave both untouched. */
  method AttributeTool(msgs: seq<Message>) returns (toolUsed: Option<Tool>, toolOutput: Option<string>)
    ensures LastClassified(msgs).None? ==> toolUsed == None && toolOutput == None
    ensures LastClassified(msgs).Some? ==>
      var i := LastClassified(msgs).value;
      toolUsed == Classify(msgs[i].name) && toolOutput == Some(msgs[i].content)
  {
    toolUsed, toolOutput := None, None;
    for n := 0 to |msgs|
      invariant LastClassified(msgs[..n]).None? ==> toolUsed == None && toolOutput == None
      invariant LastClassified(msgs[..n]).Some? ==>
        var i := LastClassified(msgs[..n]).value;
        toolUsed == Classify(msgs[i].name) && toolOutput == Some(msgs[i].content)
    {
      assert msgs[..n + 1][..n] == msgs[..n];
      var name := msgs[n].name;
      if name != "" {
        var lower := Lower(name);
        if Contains(lower, "calculate") {
          toolUsed := Some(Calculator);
          toolOutput := Some(msgs[n].content);
        } else if Contains(lower, "product") {
          toolUsed := Some(ProductRag);
          toolOutput := Some(msgs[n].content);
        } else if Contains(lower, "outlet") {
          toolUsed := Some(OutletText2Sql);
          toolOutput := Some(msgs[n].content);
        }
      }
    }
    assert msgs[..|msgs|] == msgs;
  }
}
