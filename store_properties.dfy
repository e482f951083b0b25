/** What the store transitions guarantee, and where the `chat-N` scheme collides. */
module StoreProperties {
  import opened Wrappers
  import opened Messages
  import opened SessionIds
  import opened SessionStore

  /**
   * Creation makes `chat-<size + 1>` the active id and stores an empty session
   * with the given model and prompt under it.
   */
  lemma CreateActivatesNewSession(s: Store, model: Option<string>, prompt: Option<string>)
    requires Valid(s)
    ensures var t := Create(s, model, prompt);
      && t.active.Some?
      && t.active.value[..|Prefix|] == Prefix
      && ChatNumber(t.active.value) == |s.sessions| + 1
      && t.sessions[t.active.value] == Session(model, prompt, [])
  {
  }

  /**
   * Creation removes no key and changes no other session. A fresh id is
   * appended and the map grows by one; an id already present keeps its place,
   * its session is replaced and the map does not grow.
   */
  lemma CreateKeepsEveryKey(s: Store, model: Option<string>, prompt: Option<string>)
    requires Valid(s)
    ensures var id := NewId(|s.sessions|);
      var t := Create(s, model, prompt);
      && t.sessions.Keys == s.sessions.Keys + {id}
      && (forall k :: k in s.sessions && k != id ==> t.sessions[k] == s.sessions[k])
      && (id in s.sessions ==> t.order == s.order && |t.sessions| == |s.sessions|)
      && (id !in s.sessions ==> t.order == s.order + [id] && |t.sessions| == |s.sessions| + 1)
  {
  }

  /** Ids `chat-1` .. `chat-n` in creation order: the shape of a store no session was ever deleted from. */
  ghost predicate NeverDeleted(s: Store) {
    && OrderedKeys(s)
    && (forall i :: 0 <= i < |s.order| ==> s.order[i] == ChatId(i + 1))
  }

  /** As long as nothing was deleted, the new id is fresh, and creation keeps that shape. */
  lemma CreateWithoutDeletionIsFresh(s: Store, model: Option<string>, prompt: Option<string>)
    requires NeverDeleted(s)
    ensures NewId(|s.sessions|) !in s.sessions
    ensures NeverDeleted(Create(s, model, prompt))
  {
    NextIdIsFresh(s);
    CreateAppendsFreshId(s, model, prompt);
    AppendNextId(s.order);
  }

  /** Creating under an id not yet taken appends that id to the order. */
  lemma CreateAppendsFreshId(s: Store, model: Option<string>, prompt: Option<string>)
    requires OrderedKeys(s) && NewId(|s.sessions|) !in s.sessions
    ensures OrderedKeys(Create(s, model, prompt))
    ensures Create(s, model, prompt).order == s.order + [NewId(|s.sessions|)]
  {
  }

  /** In a store nothing was deleted from, the new id is the next one in sequence and is not taken. */
  lemma NextIdIsFresh(s: Store)
    requires NeverDeleted(s)
    ensures NewId(|s.sessions|) == ChatId(|s.order| + 1)
    ensures NewId(|s.sessions|) !in s.sessions
  {
    OrderSize(s.order, s.sessions);
    NextIdNotInOrder(s.order);
  }

  /** Appending `chat-(n+1)` to `chat-1`..`chat-n` gives `chat-1`..`chat-(n+1)`. */
  lemma AppendNextId(order: seq<string>)
    requires forall i :: 0 <= i < |order| ==> order[i] == ChatId(i + 1)
    ensures var next := order + [ChatId(|order| + 1)];
      forall i :: 0 <= i < |next| ==> next[i] == ChatId(i + 1)
  {
  }

  lemma NextIdNotInOrder(order: seq<string>)
    requires forall i :: 0 <= i < |order| ==> order[i] == ChatId(i + 1)
    ensures ChatId(|order| + 1) !in order
  {
    forall i | 0 <= i < |order|
      ensures order[i] != ChatId(|order| + 1)
    {
      ChatIdInjective(i + 1, |order| + 1);
    }
  }

  /**
   * On a fresh page initialisation leaves one session, `chat-1`, with no model
   * and the default prompt, and it is active.
   */
  lemma InitialiseFreshPage()
    ensures Initialise(Empty()) ==
      Store([ChatId(1)], map[ChatId(1) := Session(None, Some(DefaultSystemPrompt), [])], Some(ChatId(1)))
  {
  }

  /**
   * Initialisation leaves the active id a key of the map; when there was no
   * active id, the session created for it has the default prompt.
   */
  lemma InitialiseEstablishesActive(s: Store)
    requires Valid(s)
    ensures var t := Initialise(s);
      && t.active.Some? && t.active.value in t.sessions
      && (s.active.None? ==> Current(t) == Session(None, Some(DefaultSystemPrompt), []))
      && (s.active.Some? ==> t == s)
  {
  }

  /** "New Chat" activates a new, empty session carrying the current model and system prompt. */
  lemma NewChatCopiesSettings(s: Store)
    requires Ready(s)
    ensures var t := NewChat(s);
      && t.active == Some(NewId(|s.sessions|))
      && Current(t) == Session(Current(s).model, Current(s).systemPrompt, [])
  {
  }

  /** Selecting only moves the active id. */
  lemma SelectOnlyMovesActive(s: Store, id: string)
    requires Ready(s) && id in s.sessions
    ensures var t := Select(s, id);
      t.active == Some(id) && t.sessions == s.sessions && t.order == s.order
  {
  }

  /** Deleting a session that is not active removes exactly that key and leaves the active id alone. */
  lemma DeleteInactive(s: Store, p: nat)
    requires Ready(s) && p < |s.order| && s.active != Some(s.order[p])
    ensures var t := Delete(s, s.order[p]);
      && t.sessions == s.sessions - {s.order[p]}
      && t.order == s.order[..p] + s.order[p + 1..]
      && t.active == s.active
  {
    WithoutAt(s.order, p);
  }

  /**
   * Deleting the active session while others remain removes exactly that key
   * and activates the oldest remaining one.
   */
  lemma DeleteActiveFallsBackToOldest(s: Store, p: nat)
    requires Ready(s) && p < |s.order| && s.active == Some(s.order[p]) && |s.order| > 1
    ensures var t := Delete(s, s.order[p]);
      && t.sessions == s.sessions - {s.order[p]}
      && t.order == s.order[..p] + s.order[p + 1..]
      && t.active == Some(if p == 0 then s.order[1] else s.order[0])
      && t.active.value in t.sessions
  {
    var id := s.order[p];
    var rest := Without(s.order, id);
    var other := if p == 0 then s.order[1] else s.order[0];
    assert rest == s.order[..p] + s.order[p + 1..] by {
      WithoutAt(s.order, p);
    }
    assert rest[0] == other;
    assert s.sessions - {id} != map[] by {
      assert other in rest;
      assert other in s.sessions - {id};
    }
    DeleteActiveWithOthers(s, id);
  }

  lemma DeleteActiveWithOthers(s: Store, id: string)
    requires Ready(s) && id in s.sessions && s.active == Some(id)
    requires s.sessions - {id} != map[]
    ensures Delete(s, id) == Store(Without(s.order, id), s.sessions - {id}, Some(Without(s.order, id)[0]))
  {
  }

  /** Deleting the last session leaves a fresh default session `chat-1`, active. */
  lemma DeleteLastRecreatesDefault(s: Store, id: string)
    requires Ready(s) && s.sessions.Keys == {id}
    ensures Delete(s, id) ==
      Store([ChatId(1)], map[ChatId(1) := Session(None, Some(DefaultSystemPrompt), [])], Some(ChatId(1)))
  {
    assert s.active == Some(id);
    assert (s.sessions - {id}).Keys == {};
    OrderSize(s.order, s.sessions);
    assert s.order == [id];
    WithoutAt(s.order, 0);
  }

  /** Deletion never changes a session other than the deleted one. */
  lemma DeleteKeepsOtherSessions(s: Store, id: string)
    requires Ready(s) && id in s.sessions
    ensures var t := Delete(s, id);
      forall k :: k in s.sessions && k != id ==> k in t.sessions && t.sessions[k] == s.sessions[k]
  {
  }

  /**
   * The collision: with `chat-1` and an active `chat-2` that holds messages,
   * deleting `chat-1` and then clicking "New Chat" builds `chat-2` again and
   * overwrites that session with an empty one, so its history is lost.
   */
  lemma NewChatAfterDeleteOverwrites(s: Store)
    requires Ready(s) && s.order == [ChatId(1), ChatId(2)] && s.active == Some(ChatId(2))
    requires |s.sessions[ChatId(2)].messages| > 0
    ensures var t := NewChat(Delete(s, ChatId(1)));
      && t.order == [ChatId(2)]
      && t.active == Some(ChatId(2))
      && t.sessions[ChatId(2)].messages == []
      && t.sessions[ChatId(2)] != s.sessions[ChatId(2)]
  {
    var one, two := ChatId(1), ChatId(2);
    ChatIdInjective(1, 2);
    DeleteInactive(s, 0);
    var d := Delete(s, one);
    assert d.order == [two] && d.active == Some(two);
    OrderSize(d.order, d.sessions);
    assert NewId(|d.sessions|) == two;
    CreateKeepsEveryKey(d, Current(d).model, Current(d).systemPrompt);
  }

  /** Creating under an id that is not taken (the corrected scheme) keeps every session and appends the id. */
  lemma CreateWithFreshIdKeepsAll(s: Store, id: string, model: Option<string>, prompt: Option<string>)
    requires Valid(s) && id !in s.sessions
    ensures var t := CreateWith(s, id, model, prompt);
      && t.order == s.order + [id]
      && |t.sessions| == |s.sessions| + 1
      && (forall k :: k in s.sessions ==> k in t.sessions && t.sessions[k] == s.sessions[k])
      && t.active == Some(id)
  {
  }

  /** Choosing a model changes only the current session's model, and only to the chosen value. */
  lemma ChooseModelOnlyTouchesModel(s: Store, chosen: Option<string>)
    requires Ready(s)
    ensures var t := ChooseModel(s, chosen);
      && t.order == s.order && t.active == s.active && t.sessions.Keys == s.sessions.Keys
      && Current(t) == Current(s).(model := chosen)
      && (forall k :: k in s.sessions && k != s.active.value ==> t.sessions[k] == s.sessions[k])
  {
  }

  /**
   * When the session's model is configured, the selector starts on it, and
   * leaving the selector there changes nothing.
   */
  lemma SelectorStartsOnCurrentModel(s: Store, models: seq<string>)
    requires Ready(s) && Current(s).model.Some? && Current(s).model.value != ""
    requires Current(s).model.value in models
    ensures SelectorIndex(models, Current(s).model).Ok?
    ensures ChooseModel(s, Some(models[SelectorIndex(models, Current(s).model).value])) == s
  {
  }

  /** Editing the system prompt changes only the current session's prompt. */
  lemma EditSystemPromptOnlyTouchesPrompt(s: Store, text: string)
    requires Ready(s)
    ensures var t := EditSystemPrompt(s, text);
      && t.order == s.order && t.active == s.active && t.sessions.Keys == s.sessions.Keys
      && Current(t) == Current(s).(systemPrompt := Some(text))
      && (forall k :: k in s.sessions && k != s.active.value ==> t.sessions[k] == s.sessions[k])
  {
  }

  /**
   * A chat turn appends the user message and then the responses, in order,
   * after the unchanged history; the list handed to the chat loop ends with
   * the user message; nothing else in the store changes.
   */
  lemma ChatTurnAppendsInOrder(s: Store, prompt: string, responses: seq<Message>)
    requires Ready(s)
    ensures var sent := Current(PostUserMessage(s, prompt)).messages;
      var t := RecordResponses(PostUserMessage(s, prompt), responses);
      var before := Current(s).messages;
      && sent == before + [UserMessage(prompt)]
      && sent[|sent| - 1] == UserMessage(prompt)
      && Current(t).messages == before + [UserMessage(prompt)] + responses
      && Current(t).messages[..|before|] == before
      && Current(t).model == Current(s).model
      && Current(t).systemPrompt == Current(s).systemPrompt
      && t.order == s.order && t.active == s.active && t.sessions.Keys == s.sessions.Keys
      && (forall k :: k in s.sessions && k != s.active.value ==> t.sessions[k] == s.sessions[k])
  {
  }

  /**
   * What a turn draws as it happens (the user message, then each response)
   * is exactly what the next run draws after the earlier history.
   */
  lemma ChatTurnRendersAsHistory(s: Store, prompt: string, responses: seq<Message>, showToolCalls: bool)
    requires Ready(s)
    ensures var t := RecordResponses(PostUserMessage(s, prompt), responses);
      RenderHistory(Current(t).messages, showToolCalls) ==
        RenderHistory(Current(s).messages, showToolCalls)
        + Rendered(UserMessage(prompt), false)
        + RenderHistory(responses, showToolCalls)
  {
    var before := Current(s).messages;
    var u := [UserMessage(prompt)];
    RenderHistoryAppend(before + u, responses, showToolCalls);
    RenderHistoryAppend(before, u, showToolCalls);
    assert u[..0] == [];
    assert RenderHistory(u, showToolCalls) == Rendered(UserMessage(prompt), false);
  }

  /** Exactly one sidebar entry is marked: the active session's. */
  lemma ExactlyOneMarkedLabel(s: Store)
    requires Ready(s)
    ensures exists i :: 0 <= i < |s.order| && Label(s.order[i], s.active) != s.order[i]
    ensures forall i, j :: 0 <= i < |s.order| && 0 <= j < |s.order|
              && Label(s.order[i], s.active) != s.order[i] && Label(s.order[j], s.active) != s.order[j]
              ==> i == j
  {
  }
}
