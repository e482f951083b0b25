# casual-mcp-chat: session store, message filter and template names

A Dafny model of the logic inside the casual-mcp-chat Streamlit app, with the
UI and the external chat library stripped away:

- **The chat-session store** (`app.py`, `create_new_session` in `utils.py`): an
  insertion-ordered map from session id (`chat-N`) to `Session` (model, system
  prompt, messages) plus the active session id. Module `SessionStore` gives each
  transition as a function on a `Store` value (`order` = the dict's key order,
  `sessions` = the map, `active` = `active_session`). The transitions are
  initialisation, create, New Chat, select, delete with fallback, model choice,
  prompt edit and a chat turn. Class `App.ChatApp` holds the same state in fields
  and updates it in place, one method per button click, widget value or chat
  turn. Each method is proved to perform its `SessionStore` transition.
  Module `StoreProperties` proves what the transitions guarantee: the active id
  is always a key, creation removes no key, deletion removes exactly one key and
  falls back to the oldest remaining session, a turn appends in order. It also
  proves where the `chat-N` id scheme collides with an existing id.
- **The message visibility filter** (`handle_chat_message`, module `Messages`):
  which messages are drawn and as which blocks, `Text(role, content)` or
  `ToolCallBlock(name, arguments)`.
- **Template names** (module `Templates`): a template is listed under the stem of
  its `*.j2` file and loaded from `prompt-templates/<name>.j2`.
- **Session ids** (module `SessionIds`): decimal writing of `N` in `chat-N`, its
  read-back, and a fresh-id variant.

A `Session` has exactly the three fields `session.py` declares: model, system
prompt and messages. It has no template-name field.

Python's `str | None` is `Option<string>`. A tool-call list that is `None` is the
empty sequence. Truthiness is written out: an empty model name, prompt, argument
text or map counts as false, as in Python.

## Model

| member | source | states |
|---|---|---|
| `Messages.UserMessage` | src/casual_mcp_chat/app.py:112 | the message built from the typed prompt is shown, with tool calls hidden or shown, as exactly one user block carrying the prompt |
| `Messages.Rendered` | src/casual_mcp_chat/utils.py:33-51 | at most one block, a text block with the message's own role and content, unless tool calls are shown for a tool-call request, which draws one block per call; only user and assistant messages draw anything; no tool-call block while tool calls are hidden |
| `Messages.HandleChatMessage` | src/casual_mcp_chat/utils.py:33-51 | the early returns and the loop over tool calls produce exactly the blocks `Rendered` specifies |
| `Messages.OtherRolesRenderNothing` | src/casual_mcp_chat/utils.py:34-35 | a message whose role is neither user nor assistant draws nothing |
| `Messages.RenderedEmptyIff` | src/casual_mcp_chat/utils.py:34-39 | nothing is drawn if and only if the role is not user/assistant, or the message is an assistant tool-call request while tool calls are hidden |
| `Messages.HiddenToolCallsRenderNothing` | src/casual_mcp_chat/utils.py:37-39 | an assistant message with a non-empty tool-call list draws nothing when tool calls are hidden |
| `Messages.ShownToolCallsRenderOnePerCall` | src/casual_mcp_chat/utils.py:41-48 | with tool calls shown: one block per call, in order, naming the function; arguments present exactly when non-empty; the message text is not drawn |
| `Messages.PlainMessageRendersOneText` | src/casual_mcp_chat/utils.py:50-51 | every other user/assistant message draws exactly one block with its role and content |
| `Messages.RenderHistory` | src/casual_mcp_chat/app.py:96-97 | every text block drawn for the history carries a user or assistant role; with tool calls hidden only text blocks are drawn, at most one per message |
| `Messages.RenderHistoryAppend` | src/casual_mcp_chat/app.py:96-97 | drawing a concatenation of messages draws the first part, then the second |
| `Messages.DisplayMessages` | src/casual_mcp_chat/app.py:96-97 | the loop calling the filter once per message draws `RenderHistory` of the list |
| `Templates.TemplatePath` | src/casual_mcp_chat/utils.py:18 | the path read for a name lies in `prompt-templates/`, ends in `.j2` (so it matches the glob), and the name can be read back from between the two |
| `Templates.MatchesGlob` | src/casual_mcp_chat/utils.py:13 | `*.j2` matches a file name exactly when it is some string, possibly empty, followed by `.j2` |
| `Templates.Stem` | src/casual_mcp_chat/utils.py:12 | `PurePath.stem`: a prefix of the name, non-empty for a non-empty name; when shorter than the name it stops at a dot that is neither the first nor the last character and after which no dot follows |
| `Templates.AvailableTemplates` | src/casual_mcp_chat/utils.py:10-14 | one non-empty name per file the glob matches, and every template `t.j2` with a non-empty `t` present in the directory is listed as `t` |
| `Templates.LastIndexOf` | src/casual_mcp_chat/utils.py:12 | the result is the last position of the character, or absent exactly when the character does not occur (the search behind the stem) |
| `Templates.Filter` | src/casual_mcp_chat/utils.py:13 | the glob's selection: keeps exactly the entries satisfying the pattern, never more entries than given |
| `Templates.TemplateNameOfFile` | src/casual_mcp_chat/utils.py:10-20 | for a non-empty name, the file `name.j2` matches the glob and its stem is `name` |
| `Templates.StemRoundTrip` | src/casual_mcp_chat/utils.py:10-20 | for any matching file other than `.j2` itself, the path rebuilt from its stem is the file's own path |
| `Templates.AvailableTemplatesRoundTrip` | src/casual_mcp_chat/utils.py:10-20 | each listed template, unless its file is literally `.j2`, loads from the file it was listed for |
| `Templates.BareSuffixFileRoundTripFails` | src/casual_mcp_chat/utils.py:10-18 | a file named `.j2` is listed as `.j2`, and loading that name reads a different path |
| `Templates.TemplateNamesRoundTrip` | src/casual_mcp_chat/utils.py:10-20 | in the corrected listing, which strips `.j2` from every match, every name (the empty name of a file `.j2` included) loads from the file it was listed for |
| `Templates.TemplateNamesComplete` | src/casual_mcp_chat/utils.py:10-20 | the corrected listing contains every template present; for a non-empty name it is the same name the stem gives |
| `SessionIds.Decimal` | src/casual_mcp_chat/utils.py:26 | the decimal text of N is non-empty, all digits, and has no leading zero |
| `SessionIds.DecimalRoundTrip` | src/casual_mcp_chat/utils.py:26 | reading back the decimal text of N gives N |
| `SessionIds.ChatId` | src/casual_mcp_chat/utils.py:26 | the id `chat-N` starts with `chat-` and is read back as N |
| `SessionIds.ChatIdInjective` | src/casual_mcp_chat/utils.py:26 | `chat-a` and `chat-b` are equal if and only if a = b |
| `SessionIds.NewId` | src/casual_mcp_chat/utils.py:26 | the id built for a store of size n starts with `chat-` and its number is n + 1 |
| `SessionIds.FreshSessionId` | src/casual_mcp_chat/utils.py:26 | the corrected id: `chat-N` not among the ids in use, N at least size + 1, and equal to the original id whenever that one is unused |
| `SessionStore.Empty` | src/casual_mcp_chat/app.py:33-34 | the fresh page's store satisfies the invariant and has no active session yet |
| `SessionStore.Without` | src/casual_mcp_chat/app.py:63 | the key order after `del`: exactly the other keys remain, still duplicate-free; absent keys leave it unchanged |
| `SessionStore.WithoutAt` | src/casual_mcp_chat/app.py:63 | deleting the key at position p splices it out and keeps the rest in insertion order |
| `SessionStore.OrderSize` | src/casual_mcp_chat/utils.py:26 | `len(sessions)` equals the number of keys in the order |
| `SessionStore.Put` | src/casual_mcp_chat/utils.py:28-31 | assignment into the dict: the key set gains the id, the id holds the new session, other entries are unchanged, the order stays duplicate-free |
| `SessionStore.CreateWith` | src/casual_mcp_chat/utils.py:27-31 | creation under a given id leaves an initialised store whose active id is a key |
| `SessionStore.Create` | src/casual_mcp_chat/utils.py:22-31 | `create_new_session` leaves an initialised store whose active id is a key |
| `SessionStore.Initialise` | src/casual_mcp_chat/app.py:36-37 | after initialisation there is an active id that is a key; an already initialised store is unchanged |
| `SessionStore.NewChat` | src/casual_mcp_chat/app.py:46-50 | "New Chat" keeps the invariant |
| `SessionStore.Select` | src/casual_mcp_chat/app.py:58-59 | selecting keeps the invariant |
| `SessionStore.Delete` | src/casual_mcp_chat/app.py:62-69 | deleting keeps the invariant: afterwards the active id is a key |
| `SessionStore.UpdateCurrent` | src/casual_mcp_chat/app.py:81-125 | the in-place changes to `session`: the current session becomes the new value; key order, key set, active id and every other session are unchanged |
| `SessionStore.Label` | src/casual_mcp_chat/app.py:57 | the label ends with the id and differs from it, by a two-character mark, exactly when the id is the active one |
| `SessionStore.IndexOf` | src/casual_mcp_chat/app.py:78 | `list.index`: absent exactly when the item does not occur, otherwise the first position holding it |
| `SessionStore.SelectorIndex` | src/casual_mcp_chat/app.py:78 | index 0 when the model is unset or empty; otherwise it succeeds exactly when the model is configured, pointing at it, and fails with the model's name otherwise |
| `SessionStore.ChooseModel` | src/casual_mcp_chat/app.py:81-82 | choosing a model keeps the invariant |
| `SessionStore.EditSystemPrompt` | src/casual_mcp_chat/app.py:85-89 | editing the prompt keeps the invariant |
| `SessionStore.PostUserMessage` | src/casual_mcp_chat/app.py:112-113 | appending the user message keeps the invariant |
| `SessionStore.RecordResponses` | src/casual_mcp_chat/app.py:125 | appending the responses keeps the invariant |
| `StoreProperties.CreateActivatesNewSession` | src/casual_mcp_chat/utils.py:26-31 | the new active id is `chat-` followed by size + 1, and it holds an empty session with the given model and prompt |
| `StoreProperties.CreateKeepsEveryKey` | src/casual_mcp_chat/utils.py:26-31 | keys afterwards are the old keys plus the new id, other sessions are unchanged; a fresh id is appended and grows the map by one, an existing id keeps its position, its session is replaced, and the map does not grow |
| `StoreProperties.NextIdIsFresh` | src/casual_mcp_chat/utils.py:26 | while ids are `chat-1`..`chat-n` in order, the new id is `chat-(n+1)` and is not taken |
| `StoreProperties.CreateAppendsFreshId` | src/casual_mcp_chat/utils.py:26-31 | creating under an id not yet taken appends it to the key order, which stays duplicate-free and in step with the map |
| `StoreProperties.CreateWithoutDeletionIsFresh` | src/casual_mcp_chat/utils.py:26 | while no session was ever deleted (ids `chat-1`..`chat-n` in order), the new id is fresh and that shape is kept |
| `StoreProperties.NextIdNotInOrder` | src/casual_mcp_chat/utils.py:26 | `chat-(n+1)` does not occur among `chat-1`..`chat-n` |
| `StoreProperties.InitialiseFreshPage` | src/casual_mcp_chat/app.py:33-37 | a fresh page ends with the single active session `chat-1`, no model, the default prompt, no messages |
| `StoreProperties.InitialiseEstablishesActive` | src/casual_mcp_chat/app.py:36-37 | afterwards the active id is a key; with no prior active id the current session has the default prompt; otherwise nothing changes |
| `StoreProperties.NewChatCopiesSettings` | src/casual_mcp_chat/app.py:46-50 | the new active session has the old current session's model and system prompt and no messages |
| `StoreProperties.SelectOnlyMovesActive` | src/casual_mcp_chat/app.py:58-59 | the active id becomes the chosen one; map and order are unchanged |
| `StoreProperties.DeleteInactive` | src/casual_mcp_chat/app.py:63-64 | deleting a non-active session removes exactly that key, splices it out of the order, and keeps the active id |
| `StoreProperties.DeleteActiveFallsBackToOldest` | src/casual_mcp_chat/app.py:63-67 | deleting the active session while others remain removes exactly that key and activates the oldest remaining key |
| `StoreProperties.DeleteActiveWithOthers` | src/casual_mcp_chat/app.py:66-67 | with other sessions left, the new active id is the first key of the remaining order |
| `StoreProperties.DeleteLastRecreatesDefault` | src/casual_mcp_chat/app.py:68-69 | deleting the only session leaves exactly one active default session `chat-1` |
| `StoreProperties.DeleteKeepsOtherSessions` | src/casual_mcp_chat/app.py:62-69 | deletion never alters a session other than the deleted one |
| `StoreProperties.NewChatAfterDeleteOverwrites` | src/casual_mcp_chat/utils.py:26-31 | with `chat-1` and an active `chat-2` holding messages, deleting `chat-1` then "New Chat" rebuilds `chat-2` and empties its history |
| `StoreProperties.CreateWithFreshIdKeepsAll` | src/casual_mcp_chat/utils.py:27-31 | creating under an unused id appends it, grows the map by one and keeps every existing session |
| `StoreProperties.ChooseModelOnlyTouchesModel` | src/casual_mcp_chat/app.py:81-82 | only the current session's model changes, to the chosen value |
| `StoreProperties.SelectorStartsOnCurrentModel` | src/casual_mcp_chat/app.py:75-82 | a configured model puts the selector on itself, and leaving the selector there changes nothing |
| `StoreProperties.EditSystemPromptOnlyTouchesPrompt` | src/casual_mcp_chat/app.py:85-89 | only the current session's system prompt changes, to the edited text |
| `StoreProperties.ChatTurnAppendsInOrder` | src/casual_mcp_chat/app.py:112-125 | the chat loop gets the history ending with the user message; afterwards the messages are the unchanged prior history, the user message, then the responses; nothing else changes |
| `StoreProperties.ChatTurnRendersAsHistory` | src/casual_mcp_chat/app.py:96-125 | what a turn draws live (user message, then responses) is what the next run draws after the earlier history |
| `StoreProperties.ExactlyOneMarkedLabel` | src/casual_mcp_chat/app.py:54-57 | exactly one sidebar entry is marked, the active session's |
| `App.ChatApp.constructor` | src/casual_mcp_chat/app.py:33-34 | a fresh page: empty session map, no active id |
| `App.ChatApp.CreateNewSession` | src/casual_mcp_chat/utils.py:22-31 | performs `Create` in place: active id `chat-<old size + 1>`, key set grows by that id, an empty session with the given model and prompt stored there |
| `App.ChatApp.Initialise` | src/casual_mcp_chat/app.py:36-37 | performs `Initialise`; afterwards the active id is a key |
| `App.ChatApp.NewChat` | src/casual_mcp_chat/app.py:46-50 | performs `NewChat` in place |
| `App.ChatApp.SelectSession` | src/casual_mcp_chat/app.py:58-59 | sets the active id; the map and the order are unchanged |
| `App.ChatApp.DeleteSession` | src/casual_mcp_chat/app.py:62-69 | performs `Delete` in place; afterwards the active id is a key |
| `App.ChatApp.ChooseModel` | src/casual_mcp_chat/app.py:81-82 | performs `ChooseModel` in place; the session's model is the chosen one |
| `App.ChatApp.EditSystemPrompt` | src/casual_mcp_chat/app.py:85-89 | performs `EditSystemPrompt` in place |
| `App.ChatApp.SubmitPrompt` | src/casual_mcp_chat/app.py:100-118 | no or an empty prompt changes nothing; otherwise the user message is appended and the copy handed to the chat loop is the old history plus that message |
| `App.ChatApp.RecordResponses` | src/casual_mcp_chat/app.py:125 | the responses are appended to the session's messages, in order |
| `App.ChatApp.SidebarLabels` | src/casual_mcp_chat/app.py:54-57 | one label per session in insertion order, marked exactly when it is the active id |
| `App.ChatApp.CreateFreshSession` | src/casual_mcp_chat/utils.py:26-31 | corrected creation: the new id was unused, is appended to the order, every existing session is kept, and the result equals `create_new_session`'s whenever its id is unused |

## Left out

- Streamlit rendering and widgets (title, sidebar, columns, buttons, text area, checkbox, chat bubbles, markdown, JSON views) and `st.rerun`: each click or widget value is one method call, and drawing is the `Block` sequence.
- The widgets' own values are parameters: the model selector's value (`chosen`, absent when no model is configured), the prompt editor's text and the chat input.
- The selectbox's own handling of an index with no options is not modelled; `SelectorIndex` stops at the index computation and its `ValueError`.
- The chat loop, provider factory, configuration loading, MCP client and environment loading are external library calls. The chat loop's response is an arbitrary message sequence passed to `RecordResponses`, and the configured model names are a sequence parameter.
- `asyncio.run` and `async`/`await`: a turn is one sequential step.
- Directory globbing and `read_text`: the directory listing is a parameter, and entries that are directories are not distinguished from files. Template names containing `/` are treated as plain strings.
- `cli.py` only launches Streamlit and is not part of this model.
- The default system prompt is an abbreviated constant; only its identity matters.
- A message whose content is `None` is modelled with a string content; the filter never inspects the content.
- Aliasing: `app.py` keeps a reference `session` to the current `Session` object and mutates it. The model replaces the map entry with an updated value instead. The effect is the same, because every structural change is followed by a rerun that fetches the session again.
- `Templates.Stem` follows `PurePath.stem` as defined up to Python 3.13: a dot that is the first or the last character of the name starts no suffix. The different rule of Python 3.14 is not modelled.
- `App.ChatApp.SubmitPrompt`: the provider lookup `config.models[session.model]` at app.py:101-104 raises `KeyError` when the session's model is not configured, before the user message is appended at app.py:113, so the history is unchanged. The model represents that run as `SubmitPrompt` not being called.
- Streamlit's per-browser-session state: the constructor models a fresh page, where neither `sessions` nor `active_session` exists yet.

## Findings

| source | as written | input that shows it | evidently intended | confidence | as-written member | corrected member |
|---|---|---|---|---|---|---|
| src/casual_mcp_chat/utils.py:26-31 | the id is `chat-` followed by the number of sessions plus one, and the session is stored under it without a check | sessions `chat-1` and an active `chat-2` with messages; delete `chat-1`, then click "New Chat": the id is `chat-2` again and that chat's history is replaced by an empty session | a new chat gets an id no existing chat has | high (not executed) | `StoreProperties.NewChatAfterDeleteOverwrites` | `App.ChatApp.CreateFreshSession` |
| src/casual_mcp_chat/utils.py:10-18 | templates are listed by `Path.stem` of every `*.j2` match | a file named exactly `.j2`: its stem is `.j2` (a leading dot starts no suffix), so it is listed as `.j2` and loading it reads `.j2.j2` | the name is the file name without `.j2`, as the comment at utils.py:12 says, so `.j2` is listed under the empty name and loading that name reads `.j2` again | low (not executed) | `Templates.BareSuffixFileRoundTripFails` | `Templates.TemplateNamesRoundTrip` |

The store transitions (`SessionStore.Create` and the `App.ChatApp` methods that call
it) keep the `chat-N` scheme as written, so that the model shows what the app does,
the collision included. The corrected creation, `App.ChatApp.CreateFreshSession`
with `SessionIds.FreshSessionId`, stands beside it. It agrees with the original
whenever the original's id is unused.
