/** The in-memory chat store (app/src/state/chatStore.ts). The message
    counter is module state in the source, shared by every store instance
    and never reset; here it is a field of the state. The clock is the `now`
    parameter. */
module ChatStore {
  import opened Wrappers
  import opened UserTypes

  datatype ChatState = ChatState(
    messages: seq<ChatMessage>,
    isLoading: bool,
    aiConfig: Option<AiConfig>,
    error: Option<string>,
    lastId: nat)

  const InitialState: ChatState := ChatState([], false, None, None, 0)

  /** The ids the store itself hands out: strictly increasing along the
      list, and none above the counter. */
  predicate IdsFromCounter(s: ChatState) {
    && (forall i, j :: 0 <= i < j < |s.messages| ==> s.messages[i].id < s.messages[j].id)
    && (forall i :: 0 <= i < |s.messages| ==> s.messages[i].id <= s.lastId)
  }

  /** `addMessage`: the message is appended with the next counter value as
      its id and the time as its timestamp; nothing before it changes. */
  function AddMessage(s: ChatState, role: Role, content: string, now: string): (r: ChatState)
    ensures |r.messages| == |s.messages| + 1 && r.messages[..|s.messages|] == s.messages
    ensures r.messages[|s.messages|] == ChatMessage(r.lastId, role, content, now)
    ensures r.lastId > s.lastId
    ensures IdsFromCounter(s) ==> IdsFromCounter(r)
  {
    var id := s.lastId + 1;
    s.(messages := s.messages + [ChatMessage(id, role, content, now)], lastId := id)
  }

  /** `setMessages` replaces the list; the counter is untouched. */
  function SetMessages(s: ChatState, messages: seq<ChatMessage>): (r: ChatState)
    ensures r.messages == messages && r.lastId == s.lastId
  {
    s.(messages := messages)
  }

  function SetLoading(s: ChatState, loading: bool): (r: ChatState)
    ensures r.isLoading == loading && r.(isLoading := s.isLoading) == s
  {
    s.(isLoading := loading)
  }

  function SetAiConfig(s: ChatState, config: AiConfig): (r: ChatState)
    ensures r.aiConfig == Some(config) && r.(aiConfig := s.aiConfig) == s
  {
    s.(aiConfig := Some(config))
  }

  function SetError(s: ChatState, error: Option<string>): (r: ChatState)
    ensures r.error == error && r.(error := s.error) == s
  {
    s.(error := error)
  }

  /** `clearMessages` empties the list but not the counter. */
  function ClearMessages(s: ChatState): (r: ChatState)
    ensures r.messages == [] && r.lastId == s.lastId
    ensures IdsFromCounter(r)
  {
    s.(messages := [])
  }

  /** A message added after a clear never reuses an id handed out before
      it: every id the store has given out stays below the next one. */
  lemma NoIdReuseAcrossClear(s: ChatState, role: Role, content: string, now: string)
    requires IdsFromCounter(s)
    ensures var r := AddMessage(ClearMessages(s), role, content, now);
      forall i :: 0 <= i < |s.messages| ==> s.messages[i].id < r.messages[0].id
  {
  }

  /** Two messages added in a row get consecutive ids, in order. */
  lemma ConsecutiveIds(s: ChatState, r1: Role, c1: string, r2: Role, c2: string, now: string)
    ensures var r := AddMessage(AddMessage(s, r1, c1, now), r2, c2, now);
      && r.messages == s.messages + [ChatMessage(s.lastId + 1, r1, c1, now), ChatMessage(s.lastId + 2, r2, c2, now)]
      && r.lastId == s.lastId + 2
  {
  }

  lemma InitialIds()
    ensures IdsFromCounter(InitialState)
  {
  }
}
