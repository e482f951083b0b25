/**
 * The page's session state as the app mutates it: each button click, widget
 * value and chat turn is one method, proved to perform the corresponding
 * transition of module SessionStore.
 */
module App {
  import opened Wrappers
  import opened Messages
  import opened SessionIds
  import opened SessionStore

  class ChatApp {
    /** The session map's keys in insertion order. */
    var order: seq<string>
    /** The session map, keyed by session id. */
    var sessions: map<string, Session>
    /** The active session's id; absent until initialisation. */
    var active: Option<string>

    /** The store these fields hold. */
    function Snapshot(): Store
      reads this
    {
      Store(order, sessions, active)
    }

    /** A fresh page: the session map is created empty, and there is no active id yet. */
    constructor ()
      ensures Snapshot() == Empty()
    {
      order := [];
      sessions := map[];
      active := None;
    }

    /**
     * Builds `chat-<size + 1>`, makes it active and stores an empty session
     * under it, replacing any session that already has that id.
     */
    method CreateNewSession(model: Option<string>, prompt: Option<string>)
      requires OrderedKeys(Snapshot())
      modifies this
      ensures Snapshot() == Create(old(Snapshot()), model, prompt)
      ensures active == Some(NewId(|old(sessions)|))
      ensures sessions.Keys == old(sessions).Keys + {active.value}
      ensures sessions[active.value] == Session(model, prompt, [])
    {
      var id := NewId(|sessions|);
      active := Some(id);
      if id !in sessions {
        order := order + [id];
      }
      sessions := sessions[id := Session(model, prompt, [])];
    }

    /** Start of every run: with no active id, a session with the default prompt is created. */
    method Initialise()
      requires Valid(Snapshot())
      modifies this
      ensures Snapshot() == SessionStore.Initialise(old(Snapshot()))
      ensures Ready(Snapshot())
    {
      if active.None? {
        CreateNewSession(None, Some(DefaultSystemPrompt));
      }
    }

    /** "New Chat": a new session with the current model and system prompt, made active. */
    method NewChat()
      requires Ready(Snapshot())
      modifies this
      ensures Snapshot() == SessionStore.NewChat(old(Snapshot()))
      ensures Ready(Snapshot())
    {
      var current := sessions[active.value];
      CreateNewSession(current.model, current.systemPrompt);
    }

    /** A session's button: that session becomes active. */
    method SelectSession(id: string)
      requires Ready(Snapshot()) && id in sessions
      modifies this
      ensures Snapshot() == Select(old(Snapshot()), id)
      ensures active == Some(id) && sessions == old(sessions) && order == old(order)
    {
      active := Some(id);
    }

    /**
     * A session's delete button: the entry goes; if it was active, the oldest
     * remaining session becomes active, or a default session is created.
     */
    method DeleteSession(id: string)
      requires Ready(Snapshot()) && id in sessions
      modifies this
      ensures Snapshot() == Delete(old(Snapshot()), id)
      ensures Ready(Snapshot())
    {
      order := Without(order, id);
      sessions := sessions - {id};
      if Some(id) == active {
        if sessions != map[] {
          NonEmptyOrder(Snapshot());
          active := Some(order[0]);
        } else {
          CreateNewSession(None, Some(DefaultSystemPrompt));
        }
      }
    }

    /** The model selector's value is stored when it differs from the session's model. */
    method ChooseModel(chosen: Option<string>)
      requires Ready(Snapshot())
      modifies this
      ensures Snapshot() == SessionStore.ChooseModel(old(Snapshot()), chosen)
      ensures sessions[active.value].model == chosen
    {
      var current := sessions[active.value];
      if chosen != current.model {
        sessions := sessions[active.value := current.(model := chosen)];
      }
    }

    /** The system-prompt editor's text is stored as the session's prompt. */
    method EditSystemPrompt(text: string)
      requires Ready(Snapshot())
      modifies this
      ensures Snapshot() == SessionStore.EditSystemPrompt(old(Snapshot()), text)
    {
      var current := sessions[active.value];
      sessions := sessions[active.value := current.(systemPrompt := Some(text))];
    }

    /**
     * The chat input: an absent or empty prompt does nothing; otherwise the
     * user message is appended and a copy of the history, which ends with it,
     * is what the chat loop is given.
     */
    method SubmitPrompt(input: Option<string>) returns (sent: Option<seq<Message>>)
      requires Ready(Snapshot())
      modifies this
      ensures (input.None? || input.value == "") ==> sent.None? && Snapshot() == old(Snapshot())
      ensures input.Some? && input.value != "" ==>
                && Snapshot() == PostUserMessage(old(Snapshot()), input.value)
                && sent == Some(old(sessions)[active.value].messages + [UserMessage(input.value)])
    {
      if input.None? || input.value == "" {
        return None;
      }
      var current := sessions[active.value];
      sessions := sessions[active.value := current.(messages := current.messages + [UserMessage(input.value)])];
      sent := Some(sessions[active.value].messages);
    }

    /** The chat loop's responses are appended to the session, in order. */
    method RecordResponses(responses: seq<Message>)
      requires Ready(Snapshot())
      modifies this
      ensures Snapshot() == SessionStore.RecordResponses(old(Snapshot()), responses)
      ensures sessions[active.value].messages == old(sessions)[active.value].messages + responses
    {
      var current := sessions[active.value];
      sessions := sessions[active.value := current.(messages := current.messages + responses)];
    }

    /** The sidebar's session buttons, one per key in insertion order, the active one marked. */
    method SidebarLabels() returns (labels: seq<string>)
      ensures |labels| == |order|
      ensures forall i :: 0 <= i < |order| ==> labels[i] == Label(order[i], active)
    {
      var ids := order;
      labels := [];
      for i := 0 to |ids|
        invariant |labels| == i
        invariant forall j :: 0 <= j < i ==> labels[j] == Label(ids[j], active)
      {
        var caption := if Some(ids[i]) == active then "✨ " + ids[i] else ids[i];
        labels := labels + [caption];
      }
    }

    /**
     * Session creation with the id made fresh: `chat-N` with N counting up
     * from size + 1 past the ids in use, so no session is ever replaced.
     */
    method CreateFreshSession(model: Option<string>, prompt: Option<string>)
      requires OrderedKeys(Snapshot())
      modifies this
      ensures active.Some? && active.value !in old(sessions)
      ensures Snapshot() == CreateWith(old(Snapshot()), active.value, model, prompt)
      ensures order == old(order) + [active.value]
      ensures forall k :: k in old(sessions) ==> k in sessions && sessions[k] == old(sessions)[k]
      ensures NewId(|old(sessions)|) !in old(sessions) ==> Snapshot() == Create(old(Snapshot()), model, prompt)
    {
      var id, n := FreshSessionId(sessions.Keys);
      active := Some(id);
      order := order + [id];
      sessions := sessions[id := Session(model, prompt, [])];
    }
  }
}
