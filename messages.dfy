/**
 * The message visibility filter of `handle_chat_message`: which chat messages
 * are drawn, and as which blocks. The drawing itself (chat bubbles, markdown,
 * JSON views) is abstracted into a sequence of `Block` values.
 */
module Messages {
  import opened Wrappers

  /** A tool invocation requested by the assistant: the function's name and its JSON argument text. */
  datatype ToolCall = ToolCall(name: string, arguments: string)

  /**
   * A chat message of the orchestration library: its role ("user", "assistant",
   * "system", "tool", ...), its text, and the tool calls an assistant message
   * carries (an absent list is the empty sequence).
   */
  datatype Message = Message(role: string, content: string, toolCalls: seq<ToolCall>)

  /**
   * The message built from what the user typed: a message the chat view
   * shows, whatever the tool-call setting, as exactly the typed text.
   */
  function UserMessage(prompt: string): (m: Message)
    ensures IsShownRole(m.role) && !RequestsTools(m)
    ensures forall show :: Rendered(m, show) == [Text("user", prompt)]
  {
    Message("user", prompt, [])
  }

  /** What the chat view draws for a message. */
  datatype Block =
    | Text(role: string, content: string)
    | ToolCallBlock(name: string, arguments: Option<string>)

  predicate IsShownRole(role: string) {
    role == "user" || role == "assistant"
  }

  /** An assistant message whose tool-call list is non-empty (truthy). */
  predicate RequestsTools(m: Message) {
    m.role == "assistant" && |m.toolCalls| > 0
  }

  /** One tool call: its name, and its arguments only when the argument text is non-empty. */
  function CallBlock(c: ToolCall): Block {
    ToolCallBlock(c.name, if c.arguments == "" then None else Some(c.arguments))
  }

  /**
   * The blocks drawn for a message, given the "Show Tool Calls" setting: at
   * most one text block, carrying the message's own role and text, unless
   * tool calls are shown for a tool-call request, which draws one block per
   * call; only user and assistant messages draw anything, and no tool-call
   * block is drawn while tool calls are hidden.
   */
  function Rendered(m: Message, showToolCalls: bool): (r: seq<Block>)
    ensures |r| <= 1 || (showToolCalls && RequestsTools(m) && |r| == |m.toolCalls|)
    ensures forall i :: 0 <= i < |r| && r[i].Text? ==> r[i] == Text(m.role, m.content)
    ensures r != [] ==> IsShownRole(m.role)
    ensures !showToolCalls ==> forall i :: 0 <= i < |r| ==> r[i].Text?
  {
    if !IsShownRole(m.role) then []
    else if RequestsTools(m) then
      if showToolCalls then seq(|m.toolCalls|, i requires 0 <= i < |m.toolCalls| => CallBlock(m.toolCalls[i]))
      else []
    else [Text(m.role, m.content)]
  }

  /** The filter as the source runs it: early returns and one pass over the tool calls. */
  method HandleChatMessage(m: Message, showToolCalls: bool) returns (blocks: seq<Block>)
    ensures blocks == Rendered(m, showToolCalls)
  {
    blocks := [];
    if !(m.role == "user" || m.role == "assistant") {
      return;
    }
    if m.role == "assistant" && |m.toolCalls| > 0 {
      if !showToolCalls {
        return;
      }
      for i := 0 to |m.toolCalls|
        invariant |blocks| == i
        invariant forall j :: 0 <= j < i ==> blocks[j] == CallBlock(m.toolCalls[j])
      {
        blocks := blocks + [CallBlock(m.toolCalls[i])];
      }
      return;
    }
    blocks := [Text(m.role, m.content)];
  }

  /** A message with any role other than user or assistant draws nothing. */
  lemma OtherRolesRenderNothing(m: Message, showToolCalls: bool)
    requires !IsShownRole(m.role)
    ensures Rendered(m, showToolCalls) == []
  {
  }

  /** Nothing is drawn exactly for other roles, and for tool-call requests while tool calls are hidden. */
  lemma RenderedEmptyIff(m: Message, showToolCalls: bool)
    ensures Rendered(m, showToolCalls) == [] <==>
              !IsShownRole(m.role) || (RequestsTools(m) && !showToolCalls)
  {
  }

  /** With tool calls hidden, an assistant message that requests tools draws nothing. */
  lemma HiddenToolCallsRenderNothing(m: Message)
    requires RequestsTools(m)
    ensures Rendered(m, false) == []
  {
  }

  /**
   * With tool calls shown, a tool-call request draws one block per call, in
   * order, naming the function, with the arguments only when non-empty; the
   * message's own text is never drawn.
   */
  lemma ShownToolCallsRenderOnePerCall(m: Message)
    requires RequestsTools(m)
    ensures var r := Rendered(m, true);
      && |r| == |m.toolCalls|
      && (forall i :: 0 <= i < |r| ==>
            && r[i].ToolCallBlock?
            && r[i].name == m.toolCalls[i].name
            && (r[i].arguments.Some? <==> m.toolCalls[i].arguments != "")
            && (r[i].arguments.Some? ==> r[i].arguments.value == m.toolCalls[i].arguments))
      && Text(m.role, m.content) !in r
  {
  }

  /** Every other user or assistant message draws exactly one block: its role and its text. */
  lemma PlainMessageRendersOneText(m: Message, showToolCalls: bool)
    requires IsShownRole(m.role) && !RequestsTools(m)
    ensures Rendered(m, showToolCalls) == [Text(m.role, m.content)]
  {
  }

  /**
   * The blocks drawn for a list of messages, one message after another: each
   * text block carries a user or assistant role, and while tool calls are
   * hidden only text blocks are drawn, at most one per message.
   */
  function RenderHistory(msgs: seq<Message>, showToolCalls: bool): (r: seq<Block>)
    ensures forall i :: 0 <= i < |r| && r[i].Text? ==> IsShownRole(r[i].role)
    ensures !showToolCalls ==> |r| <= |msgs| && forall i :: 0 <= i < |r| ==> r[i].Text?
  {
    if msgs == [] then []
    else RenderHistory(msgs[..|msgs| - 1], showToolCalls) + Rendered(msgs[|msgs| - 1], showToolCalls)
  }

  /** Drawing a concatenation draws the first part, then the second. */
  lemma {:induction false} RenderHistoryAppend(a: seq<Message>, b: seq<Message>, showToolCalls: bool)
    ensures RenderHistory(a + b, showToolCalls) == RenderHistory(a, showToolCalls) + RenderHistory(b, showToolCalls)
    decreases |b|
  {
    if b == [] {
      assert a + b == a;
    } else {
      var b', last := b[..|b| - 1], b[|b| - 1];
      calc {
        RenderHistory(a + b, showToolCalls);
        { assert (a + b)[..|a + b| - 1] == a + b'; assert (a + b)[|a + b| - 1] == last; }
        RenderHistory(a + b', showToolCalls) + Rendered(last, showToolCalls);
        { RenderHistoryAppend(a, b', showToolCalls); }
        RenderHistory(a, showToolCalls) + RenderHistory(b', showToolCalls) + Rendered(last, showToolCalls);
        RenderHistory(a, showToolCalls) + (RenderHistory(b', showToolCalls) + Rendered(last, showToolCalls));
        RenderHistory(a, showToolCalls) + RenderHistory(b, showToolCalls);
      }
    }
  }

  /** The loop that draws a list of messages, one `handle_chat_message` call each. */
  method DisplayMessages(msgs: seq<Message>, showToolCalls: bool) returns (blocks: seq<Block>)
    ensures blocks == RenderHistory(msgs, showToolCalls)
  {
    blocks := [];
    for i := 0 to |msgs|
      invariant blocks == RenderHistory(msgs[..i], showToolCalls)
    {
      var drawn := HandleChatMessage(msgs[i], showToolCalls);
      assert msgs[..i + 1][..i] == msgs[..i];
      blocks := blocks + drawn;
    }
    assert msgs[..|msgs|] == msgs;
  }
}
