/** The chat endpoint: the in-memory session store and one turn of a conversation
    (main.py:317-552). The agent is a parameter: whatever messages it returns for the
    history it is given. */
module Chat {
  import opened Wrappers
  import opened Messages
  import opened Sanitizer
  import opened Normalizer

  /** What the endpoint gives back: HTTP 503 when the language model or the agent
      was not initialised, otherwise a chat response. */
  datatype Outcome = Unavailable | Answered(response: ChatResponse)

  /** In the history after a turn, the last user message is the one of that turn. */
  lemma LastHumanIsMessage(history: seq<Message>, message: string, answer: string)
    ensures LastContentOf(history + [HumanMessage(message)] + [AiMessage(answer)], Human) == Some(message)
  {
    var h := history + [HumanMessage(message)] + [AiMessage(answer)];
    assert h[|h| - 1].kind == Ai && h[|h| - 2].kind == Human;
    assert h[..|h| - 1][|h| - 2] == HumanMessage(message);
  }

  /** Only the calculator reads the last user message. */
  lemma RewriteIgnoresLastHuman(tool: Tool, t: string, message: string, lastHuman: Option<string>)
    requires tool != Calculator
    ensures Rewrite(tool, t, message, lastHuman) == Rewrite(tool, t, message, None)
  {
  }

  /** The post-processing of a turn's answer, given the session history in which
      the turn's message is the last user message. */
  method Postprocess(message: string, answer: string, final: seq<Message>, history: seq<Message>)
    returns (response: ChatResponse)
    requires LastContentOf(history, Human) == Some(message)
    ensures response == Respond(message, answer, final, Some(message))
  {
    var reply := answer;
    var toolUsed, toolOutput := AttributeTool(final);
    if toolUsed.Some? && toolOutput.Some? && toolOutput.value != "" {
      var t := SanitizeToolOutput(toolOutput);
      var lastHuman: Option<string> := None;
      if toolUsed.value == Calculator {
        lastHuman := FindLastContent(history, Human);
      } else {
        RewriteIgnoresLastHuman(toolUsed.value, t, message, Some(message));
      }
      reply := RewriteAnswer(toolUsed.value, t, message, lastHuman);
    }
    if toolUsed.None? {
      toolUsed := FallbackTool(reply);
    }
    response := ChatResponse(reply, toolUsed, Steps(toolUsed));
  }

  /** `session_store`: the message history of each session id. */
  class SessionStore {
    var sessions: map<string, seq<Message>>

    constructor ()
      ensures sessions == map[]
    {
      sessions := map[];
    }

    /** The history of a session, empty for an id never seen. */
    function History(id: string): seq<Message>
      reads this
    {
      if id in sessions then sessions[id] else []
    }

    /** Give an id never seen an empty history. */
    method Open(id: string)
      modifies this
      ensures sessions == old(sessions)[id := old(History(id))]
      ensures id in old(sessions) ==> sessions == old(sessions)
    {
      if id !in sessions {
        sessions := sessions[id := []];
      }
    }

    /** Append a message to a session's history. */
    method Append(id: string, m: Message)
      requires id in sessions
      modifies this
      ensures sessions == old(sessions)[id := old(sessions)[id] + [m]]
    {
      sessions := sessions[id := sessions[id] + [m]];
    }

    /** One call of the chat endpoint: the user message and the agent's raw answer
        are appended to the session, the response is the answer as the post-processing
        rewrites it, and no other session changes. */
    method Turn(id: string, message: string, ready: bool, agent: seq<Message> -> seq<Message>)
      returns (outcome: Outcome)
      modifies this
      ensures !ready ==> outcome == Unavailable && sessions == old(sessions)
      ensures ready ==>
        var history := old(History(id)) + [HumanMessage(message)];
        var final := agent(history);
        sessions == old(sessions)[id := history + [AiMessage(AnswerOf(final))]]
        && outcome == Answered(Respond(message, AnswerOf(final), final, Some(message)))
    {
      if !ready {
        return Unavailable;
      }
      var before := History(id);
      var start := sessions;
      Open(id);
      Append(id, HumanMessage(message));
      var history := sessions[id];
      var final := agent(history);
      var last := FindLastContent(final, Ai);
      var answer := if last.Some? then last.value else NoAnswer;
      Append(id, AiMessage(answer));
      LastHumanIsMessage(before, message, answer);
      assert sessions == start[id := before + [HumanMessage(message)] + [AiMessage(answer)]];
      var response := Postprocess(message, answer, final, sessions[id]);
      outcome := Answered(response);
    }
  }
}
