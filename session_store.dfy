/**
 * The chat-session store: an insertion-ordered map from session id to
 * `Session`, and the id of the active session. Each function below is one
 * transition the app performs on a button click, a widget value or a chat
 * turn; the class in module App performs the same transitions in place.
 */
module SessionStore {
  import opened Wrappers
  import opened Messages
  import opened SessionIds

  /** The app's default system prompt; its text does not matter here, only that it is one fixed string. */
  const DefaultSystemPrompt: string := "You are a helpful assistant."

  /** One conversation: the chosen model, the system prompt and the messages so far. */
  datatype Session = Session(model: Option<string>, systemPrompt: Option<string>, messages: seq<Message>)

  /**
   * The store: `order` lists the keys of `sessions` in insertion order (a
   * Python dict's iteration order); `active` is `active_session`, absent
   * before initialisation.
   */
  datatype Store = Store(order: seq<string>, sessions: map<string, Session>, active: Option<string>)

  ghost predicate Distinct(xs: seq<string>) {
    forall i, j :: 0 <= i < j < |xs| ==> xs[i] != xs[j]
  }

  /** Every key appears in `order` exactly once, and nothing else does. */
  ghost predicate OrderedKeys(s: Store) {
    && Distinct(s.order)
    && (forall k :: k in s.order <==> k in s.sessions)
  }

  /** The store invariant: ordered keys, and an active id (once there is one) that is a key. */
  ghost predicate Valid(s: Store) {
    && OrderedKeys(s)
    && (s.active.Some? ==> s.active.value in s.sessions)
  }

  /** Valid and initialised: there is an active session. */
  ghost predicate Ready(s: Store) {
    Valid(s) && s.active.Some?
  }

  /** The store `app.py` starts from on a fresh page: an empty map, no active id. */
  function Empty(): (s: Store)
    ensures Valid(s) && !Ready(s)
  {
    Store([], map[], None)
  }

  /** The order after `del`: `x` taken out, the others kept in order. */
  function Without(xs: seq<string>, x: string): (r: seq<string>)
    ensures forall y :: y in r <==> y in xs && y != x
    ensures Distinct(xs) ==> Distinct(r)
    ensures x !in xs ==> r == xs
  {
    if xs == [] then []
    else if xs[0] == x then Without(xs[1..], x)
    else
      var r := Without(xs[1..], x);
      assert Distinct(xs) ==> xs[0] !in xs[1..] && xs[0] !in r;
      [xs[0]] + r
  }

  /** Removing the key at position p from a duplicate-free order splices it out. */
  lemma {:induction false} WithoutAt(xs: seq<string>, p: nat)
    requires Distinct(xs) && p < |xs|
    ensures Without(xs, xs[p]) == xs[..p] + xs[p + 1..]
  {
    var x, before, after := xs[p], xs[..p], xs[p + 1..];
    assert x !in before && x !in after;
    assert xs == before + ([x] + after);
    WithoutConcat(before, [x] + after, x);
    WithoutConcat([x], after, x);
  }

  /** Removing a key from a concatenation removes it from each part. */
  lemma {:induction false} WithoutConcat(a: seq<string>, b: seq<string>, x: string)
    ensures Without(a + b, x) == Without(a, x) + Without(b, x)
  {
    if a == [] {
      assert a + b == b;
    } else {
      assert (a + b)[1..] == a[1..] + b;
      WithoutConcat(a[1..], b, x);
    }
  }

  /** A duplicate-free order has as many entries as the map has keys. */
  lemma {:induction false} OrderSize(order: seq<string>, sessions: map<string, Session>)
    requires Distinct(order)
    requires forall k :: k in order <==> k in sessions
    ensures |sessions| == |order|
    decreases |order|
  {
    if order == [] {
      assert sessions.Keys == {};
    } else {
      var k := order[|order| - 1];
      var rest := order[..|order| - 1];
      assert forall y :: y in rest <==> y in order && y != k by {
        forall y ensures y in rest <==> y in order && y != k {
          if y in order && y != k {
            var i :| 0 <= i < |order| && order[i] == y;
            assert rest[i] == y;
          }
        }
      }
      OrderSize(rest, sessions - {k});
    }
  }

  /** Python's `sessions[id] = v`: a new key goes last; an existing key keeps its place. */
  function Put(s: Store, id: string, v: Session): (t: Store)
    requires OrderedKeys(s)
    ensures OrderedKeys(t) && t.active == s.active
    ensures t.sessions.Keys == s.sessions.Keys + {id} && t.sessions[id] == v
    ensures forall k :: k in s.sessions && k != id ==> t.sessions[k] == s.sessions[k]
  {
    Store(if id in s.sessions then s.order else s.order + [id], s.sessions[id := v], s.active)
  }

  /** `create_new_session` with a given id: an empty session under `id`, made active. */
  function CreateWith(s: Store, id: string, model: Option<string>, prompt: Option<string>): (t: Store)
    requires OrderedKeys(s)
    ensures Ready(t)
  {
    Put(s, id, Session(model, prompt, [])).(active := Some(id))
  }

  /** `create_new_session(model, system_prompt)`: the id is `chat-` and the store's size plus one. */
  function Create(s: Store, model: Option<string>, prompt: Option<string>): (t: Store)
    requires OrderedKeys(s)
    ensures Ready(t)
  {
    CreateWith(s, NewId(|s.sessions|), model, prompt)
  }

  /** Start of every run: with no active id, create a session with the default prompt. */
  function Initialise(s: Store): (t: Store)
    requires Valid(s)
    ensures Ready(t)
    ensures s.active.Some? ==> t == s
  {
    if s.active.None? then Create(s, None, Some(DefaultSystemPrompt)) else s
  }

  /** The session the page is showing. */
  function Current(s: Store): Session
    requires Ready(s)
  {
    s.sessions[s.active.value]
  }

  /** "New Chat": a new session with the current one's model and system prompt. */
  function NewChat(s: Store): (t: Store)
    requires Ready(s)
    ensures Ready(t)
  {
    Create(s, Current(s).model, Current(s).systemPrompt)
  }

  /** A click on a session's button makes it active. */
  function Select(s: Store, id: string): (t: Store)
    requires Ready(s) && id in s.sessions
    ensures Ready(t)
  {
    s.(active := Some(id))
  }

  lemma NonEmptyOrder(s: Store)
    requires OrderedKeys(s) && s.sessions != map[]
    ensures s.order != []
  {
  }

  /**
   * A click on a session's delete button: the entry is removed; if it was the
   * active one, the oldest remaining session becomes active, or, when none
   * remains, a default session is created.
   */
  function Delete(s: Store, id: string): (t: Store)
    requires Ready(s) && id in s.sessions
    ensures Ready(t)
  {
    var rest := s.(order := Without(s.order, id), sessions := s.sessions - {id});
    if s.active != Some(id) then rest
    else if rest.sessions != map[] then
      NonEmptyOrder(rest);
      rest.(active := Some(rest.order[0]))
    else Create(rest, None, Some(DefaultSystemPrompt))
  }

  /** Replaces the current session, leaving the order, the active id and the other sessions alone. */
  function UpdateCurrent(s: Store, v: Session): (t: Store)
    requires Ready(s)
    ensures Ready(t)
    ensures t.order == s.order && t.active == s.active && t.sessions.Keys == s.sessions.Keys
    ensures Current(t) == v
    ensures forall id :: id in s.sessions && Some(id) != s.active ==> t.sessions[id] == s.sessions[id]
  {
    s.(sessions := s.sessions[s.active.value := v])
  }

  /** The model selector's starting position, or the error `list.index` raises. */
  datatype SelectorError = ModelNotConfigured(model: string)

  /** Python's `list.index`: the first position of `x` in `xs`, if any. */
  function IndexOf(xs: seq<string>, x: string): (r: Option<nat>)
    ensures r.None? <==> x !in xs
    ensures r.Some? ==> r.value < |xs| && xs[r.value] == x && x !in xs[..r.value]
  {
    if xs == [] then None
    else if xs[0] == x then Some(0)
    else match IndexOf(xs[1..], x)
      case None => None
      case Some(i) =>
        assert xs[..i + 1] == [xs[0]] + xs[1..][..i];
        Some(i + 1)
  }

  /**
   * The selector's index: 0 when the session's model is unset (or empty, which
   * Python also treats as false), else the model's position among the
   * configured ones, failing when it is not configured.
   */
  function SelectorIndex(models: seq<string>, current: Option<string>): (r: Result<nat, SelectorError>)
    ensures (current.None? || current.value == "") ==> r == Ok(0)
    ensures current.Some? && current.value != "" ==>
              && (r.Ok? <==> current.value in models)
              && (r.Ok? ==> r.value < |models| && models[r.value] == current.value)
              && (r.Err? ==> r.error == ModelNotConfigured(current.value))
  {
    if current.None? || current.value == "" then Ok(0)
    else match IndexOf(models, current.value)
      case Some(i) => Ok(i)
      case None => Err(ModelNotConfigured(current.value))
  }

  /** The selector's value is stored as the session's model when it differs from it. */
  function ChooseModel(s: Store, chosen: Option<string>): (t: Store)
    requires Ready(s)
    ensures Ready(t)
  {
    if chosen != Current(s).model then UpdateCurrent(s, Current(s).(model := chosen)) else s
  }

  /** The system-prompt editor's text becomes the session's system prompt. */
  function EditSystemPrompt(s: Store, text: string): (t: Store)
    requires Ready(s)
    ensures Ready(t)
  {
    UpdateCurrent(s, Current(s).(systemPrompt := Some(text)))
  }

  /** A submitted prompt is appended to the current session as a user message. */
  function PostUserMessage(s: Store, prompt: string): (t: Store)
    requires Ready(s)
    ensures Ready(t)
  {
    UpdateCurrent(s, Current(s).(messages := Current(s).messages + [UserMessage(prompt)]))
  }

  /** The chat loop's responses are appended to the current session. */
  function RecordResponses(s: Store, responses: seq<Message>): (t: Store)
    requires Ready(s)
    ensures Ready(t)
  {
    UpdateCurrent(s, Current(s).(messages := Current(s).messages + responses))
  }

  /**
   * The sidebar's label for a session: the id itself, preceded by a two-character
   * mark exactly when it is the active one.
   */
  function Label(id: string, active: Option<string>): (r: string)
    ensures |id| <= |r| <= |id| + 2 && r[|r| - |id|..] == id
    ensures r != id <==> active == Some(id)
  {
    if active == Some(id) then "✨ " + id else id
  }
}
