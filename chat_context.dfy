/** The client-side chat list (web/src/context/ChatContext.tsx): a list of
    chats, newest first, and the id of the active chat. Every operation
    replaces the list or the active id; the transitions themselves are the
    pure functions below, and `ChatStore` holds the state they act on.
    Identifiers (`crypto.randomUUID()`) and creation times (`new Date()`)
    are parameters of the operations that need them. */
module ChatContext {
  import opened Seqs
  import opened Text

  datatype Role = User | Assistant

  datatype MessageMetadata = MessageMetadata(
    responseTimeMs: Option<int>,
    contextUsed: Option<bool>,
    toolCalls: Option<seq<string>>,
    errorOccurred: Option<bool>,
    errorType: Option<string>)

  datatype Message = Message(id: string, role: Role, content: string, metadata: Option<MessageMetadata>)

  /** `createdAt` is a time in milliseconds. */
  datatype Chat = Chat(id: string, title: string, messages: seq<Message>, createdAt: int)

  const NewChatTitle: string := "New chat"
  const TitleLength: nat := 30
  const Ellipsis: string := "..."

  /** `chats[i]` is the first chat whose id is `id`. */
  ghost predicate IsFirstWithId(chats: seq<Chat>, id: string, i: int)
  {
    0 <= i < |chats| && chats[i].id == id && forall j :: 0 <= j < i ==> chats[j].id != id
  }

  /** `chats.find(c => c.id === id)`. */
  function FindChat(chats: seq<Chat>, id: string): (r: Option<Chat>)
    ensures r.None? <==> forall i :: 0 <= i < |chats| ==> chats[i].id != id
    ensures r.Some? ==> exists i :: IsFirstWithId(chats, id, i) && chats[i] == r.value
  {
    if chats == [] then None
    else if chats[0].id == id then
      assert IsFirstWithId(chats, id, 0);
      Some(chats[0])
    else
      var r := FindChat(chats[1..], id);
      assert r.Some? ==> exists i :: IsFirstWithId(chats, id, i) && chats[i] == r.value by {
        if r.Some? {
          var i :| IsFirstWithId(chats[1..], id, i) && chats[1..][i] == r.value;
          assert IsFirstWithId(chats, id, i + 1);
        }
      }
      r
  }

  /** `activeChat`: the first chat whose id is the active id, or null when the
      active id is null or no chat has it. */
  function ActiveChatOf(chats: seq<Chat>, active: Option<string>): (r: Option<Chat>)
    ensures r.None? <==> active.None? || forall i :: 0 <= i < |chats| ==> chats[i].id != active.value
    ensures r.Some? ==> active.Some? && r.value in chats && r.value.id == active.value
    ensures r.Some? ==> exists i :: IsFirstWithId(chats, active.value, i) && chats[i] == r.value
  {
    if active.None? then None else FindChat(chats, active.value)
  }

  /** The chat `createNewChat` builds. */
  function NewChat(id: string, now: int): (c: Chat)
    ensures c.id == id && c.title == NewChatTitle && c.messages == [] && c.createdAt == now
  {
    Chat(id, NewChatTitle, [], now)
  }

  /** `chatId || activeChatId`, then the `!targetChatId` guard: an absent or
      empty `chatId` falls back to the active id, and an absent or empty
      result means there is nothing to add to. */
  function TargetChatId(chatId: Option<string>, active: Option<string>): (r: Option<string>)
    ensures r.Some? ==> r.value != ""
    ensures r.None? <==> (chatId.None? || chatId.value == "") && (active.None? || active.value == "")
    ensures chatId.Some? && chatId.value != "" ==> r == chatId
    ensures (chatId.None? || chatId.value == "") && active.Some? && active.value != "" ==> r == active
  {
    if chatId.Some? && chatId.value != "" then chatId
    else if active.Some? && active.value != "" then active
    else None
  }

  predicate IsUserMessage(m: Message)
  {
    m.role == User
  }

  /** The auto-title rule: the title is still the placeholder, the new message
      is from the user, and it is the only user message once appended. */
  predicate ShouldUpdateTitle(chat: Chat, msg: Message)
  {
    chat.title == NewChatTitle && msg.role == User
    && |Filter(chat.messages + [msg], IsUserMessage)| == 1
  }

  /** The title taken from a first user message: its first 30 characters,
      followed by "..." exactly when it is longer than that. */
  function AutoTitle(content: string): (t: string)
    ensures |content| <= TitleLength ==> t == content
    ensures |content| > TitleLength ==> |t| == TitleLength + |Ellipsis| && t[TitleLength..] == Ellipsis
    ensures t[..if |content| <= TitleLength then |content| else TitleLength] == content[..if |content| <= TitleLength then |content| else TitleLength]
    ensures |t| <= TitleLength + |Ellipsis|
  {
    var n := if |content| <= TitleLength then |content| else TitleLength;
    content[..n] + (if |content| > TitleLength then Ellipsis else "")
  }

  /** A chat with one more message, re-titled by the auto-title rule. */
  function AppendMessage(chat: Chat, msg: Message): (c: Chat)
    ensures c.id == chat.id && c.createdAt == chat.createdAt
    ensures c.messages == chat.messages + [msg]
  {
    var shouldUpdate := ShouldUpdateTitle(chat, msg);
    chat.(messages := chat.messages + [msg], title := if shouldUpdate then AutoTitle(msg.content) else chat.title)
  }

  /** The auto-title rule holds exactly for a user message sent to a chat that
      still has the placeholder title and no user message yet. */
  lemma ShouldUpdateTitleIff(chat: Chat, msg: Message)
    ensures ShouldUpdateTitle(chat, msg)
      <==> chat.title == NewChatTitle && msg.role == User
           && forall i :: 0 <= i < |chat.messages| ==> chat.messages[i].role != User
  {
    FilterSnoc(chat.messages, msg, IsUserMessage);
    FilterMembers(chat.messages, IsUserMessage);
    var before := Filter(chat.messages, IsUserMessage);
    assert before == [] <==> forall i :: 0 <= i < |chat.messages| ==> chat.messages[i].role != User by {
      if before != [] {
        assert before[0] in before;
      }
      assert (exists i :: 0 <= i < |chat.messages| && chat.messages[i].role == User) ==> before != [] by {
        if i :| 0 <= i < |chat.messages| && chat.messages[i].role == User {
          assert chat.messages[i] in chat.messages;
        }
      }
    }
  }

  /** The title changes only under the auto-title rule, and then to the
      truncated content of the message; otherwise it stays as it was. */
  lemma AppendMessageTitle(chat: Chat, msg: Message)
    ensures var c := AppendMessage(chat, msg);
      if chat.title == NewChatTitle && msg.role == User
         && forall i :: 0 <= i < |chat.messages| ==> chat.messages[i].role != User
      then c.title == AutoTitle(msg.content) && |c.title| <= TitleLength + |Ellipsis|
      else c.title == chat.title
  {
    ShouldUpdateTitleIff(chat, msg);
  }

  /** The `map` of `addMessage`: the chats whose id is `target` get the message,
      every other chat is kept as it is, and the list keeps its length and order. */
  function WithMessage(chats: seq<Chat>, target: string, msg: Message): (r: seq<Chat>)
    ensures |r| == |chats|
    ensures forall i :: 0 <= i < |chats| && chats[i].id != target ==> r[i] == chats[i]
    ensures forall i :: 0 <= i < |chats| && chats[i].id == target ==> r[i] == AppendMessage(chats[i], msg)
    ensures forall i :: 0 <= i < |chats| ==> r[i].id == chats[i].id && r[i].createdAt == chats[i].createdAt
    ensures (forall i :: 0 <= i < |chats| ==> chats[i].id != target) ==> r == chats
  {
    if chats == [] then []
    else
      var head := if chats[0].id == target then AppendMessage(chats[0], msg) else chats[0];
      [head] + WithMessage(chats[1..], target, msg)
  }

  /** The `map` of `updateChatTitle`: the chats whose id is `id` get the title,
      nothing else changes. */
  function Retitled(chats: seq<Chat>, id: string, title: string): (r: seq<Chat>)
    ensures |r| == |chats|
    ensures forall i :: 0 <= i < |chats| && chats[i].id != id ==> r[i] == chats[i]
    ensures forall i :: 0 <= i < |chats| && chats[i].id == id ==> r[i] == chats[i].(title := title)
    ensures (forall i :: 0 <= i < |chats| ==> chats[i].id != id) ==> r == chats
  {
    if chats == [] then []
    else
      var head := if chats[0].id == id then chats[0].(title := title) else chats[0];
      [head] + Retitled(chats[1..], id, title)
  }

  predicate HasOtherId(id: string, c: Chat)
  {
    c.id != id
  }

  /** The `filter` of `deleteChat`: every chat with id `id` is removed, the
      others stay in their order. */
  function Without(chats: seq<Chat>, id: string): (r: seq<Chat>)
    ensures forall c :: c in r <==> c in chats && c.id != id
    ensures forall c :: multiset(r)[c] == if c.id != id then multiset(chats)[c] else 0
    ensures IsSubsequence(r, chats)
    ensures (forall i :: 0 <= i < |chats| ==> chats[i].id != id) ==> r == chats
  {
    var p := (c: Chat) => HasOtherId(id, c);
    FilterMembers(chats, p);
    FilterMultiset(chats, p);
    FilterIsSubsequence(chats, p);
    FilterKeepsAll(chats, p);
    Filter(chats, p)
  }

  /** The active id after deleting `deleted`: when the active chat was deleted,
      the first remaining chat becomes active, or none when none remain. */
  function ActiveAfterDelete(active: Option<string>, deleted: string, remaining: seq<Chat>): (r: Option<string>)
    ensures active != Some(deleted) ==> r == active
    ensures active == Some(deleted) && remaining != [] ==> r == Some(remaining[0].id)
    ensures active == Some(deleted) && remaining == [] ==> r == None
  {
    if active == Some(deleted) then
      if |remaining| > 0 then Some(remaining[0].id) else None
    else active
  }

  /** The state of `ChatProvider`. */
  class ChatStore {
    var chats: seq<Chat>
    var activeId: Option<string>
    var isLoading: bool

    constructor ()
      ensures chats == [] && activeId == None && !isLoading
    {
      chats := [];
      activeId := None;
      isLoading := false;
    }

    function ActiveChat(): Option<Chat>
      reads this
    {
      ActiveChatOf(chats, activeId)
    }

    /** Prepends a fresh placeholder chat, makes it active and returns its id. */
    method CreateNewChat(id: string, now: int) returns (newId: string)
      modifies this
      ensures newId == id
      ensures chats == [NewChat(id, now)] + old(chats)
      ensures |chats| == |old(chats)| + 1 && chats[1..] == old(chats)
      ensures activeId == Some(id)
      ensures ActiveChat() == Some(NewChat(id, now))
      ensures isLoading == old(isLoading)
    {
      chats := [NewChat(id, now)] + chats;
      activeId := Some(id);
      newId := id;
      assert IsFirstWithId(chats, id, 0);
    }

    method SelectChat(chatId: string)
      modifies this
      ensures activeId == Some(chatId)
      ensures chats == old(chats) && isLoading == old(isLoading)
    {
      activeId := Some(chatId);
    }

    /** Appends a message (given its fresh id) to the target chat; does nothing
      when neither `chatId` nor the active id names a chat. */
    method AddMessage(role: Role, content: string, metadata: Option<MessageMetadata>,
                      chatId: Option<string>, freshId: string)
      modifies this
      ensures var target := TargetChatId(chatId, old(activeId));
        chats == if target.None? then old(chats)
                 else WithMessage(old(chats), target.value, Message(freshId, role, content, metadata))
      ensures |chats| == |old(chats)|
      ensures activeId == old(activeId) && isLoading == old(isLoading)
    {
      var target := TargetChatId(chatId, activeId);
      if target.None? {
        return;
      }
      var msg := Message(freshId, role, content, metadata);
      chats := WithMessage(chats, target.value, msg);
    }

    method UpdateChatTitle(chatId: string, title: string)
      modifies this
      ensures chats == Retitled(old(chats), chatId, title)
      ensures activeId == old(activeId) && isLoading == old(isLoading)
    {
      chats := Retitled(chats, chatId, title);
    }

    /** Removes the chat locally (the remote DELETE is not modelled) and
      reassigns the active id when the active chat was removed. */
    method DeleteChat(chatId: string)
      modifies this
      ensures chats == Without(old(chats), chatId)
      ensures activeId == ActiveAfterDelete(old(activeId), chatId, chats)
      ensures old(activeId) == Some(chatId) && chats != [] ==> ActiveChat() == Some(chats[0])
      ensures isLoading == old(isLoading)
    {
      var remaining := Without(chats, chatId);
      activeId := ActiveAfterDelete(activeId, chatId, remaining);
      chats := remaining;
      if chats != [] && activeId == Some(chats[0].id) {
        assert IsFirstWithId(chats, chats[0].id, 0);
      }
    }

    method SetIsLoading(loading: bool)
      modifies this
      ensures isLoading == loading
      ensures chats == old(chats) && activeId == old(activeId)
    {
      isLoading := loading;
    }
  }
}
