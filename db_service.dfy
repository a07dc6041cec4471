/** The chat store's database layer (api/db_service.py, `ChatDBService`):
    the text encoding of a message's tool-call list, the row written by
    `save_message`, and the dictionaries `get_chats` and
    `get_chat_with_messages` build from the rows their queries return. The
    SQL itself is not modelled: query results are inputs, and the row a
    write produces is an output. */
module DbService {
  import opened Seqs
  import opened Text

  /** `",".join(tool_calls) if tool_calls else None`: an absent or empty
      list is stored as no value, any other list as its comma-joined text. */
  function EncodeToolCalls(toolCalls: Option<seq<string>>): (r: Option<string>)
    ensures r.None? <==> toolCalls.None? || toolCalls.value == []
    ensures r.Some? ==> r.value == Join(toolCalls.value, [','])
  {
    if toolCalls.Some? && toolCalls.value != [] then Some(Join(toolCalls.value, [','])) else None
  }

  /** `tool_calls = s.split(",") if s else []`, then `tool_calls if
      tool_calls else None`: no value or the empty text reads back as no
      list, any other text as its comma-separated parts. */
  function DecodeToolCalls(stored: Option<string>): (r: Option<seq<string>>)
    ensures r.None? <==> stored.None? || stored.value == ""
    ensures r.Some? ==> r.value != [] && forall i :: 0 <= i < |r.value| ==> ',' !in r.value[i]
    ensures r.Some? ==> Join(r.value, [',']) == stored.value
  {
    var calls := if stored.Some? && stored.value != "" then Split(stored.value, ',') else [];
    assert stored.Some? && stored.value != "" ==> Join(calls, [',']) == stored.value by {
      if stored.Some? && stored.value != "" {
        JoinSplit(stored.value, ',');
      }
    }
    if calls != [] then Some(calls) else None
  }

  /** A list that is not empty, has no comma in any element and is not the
      single empty name reads back as itself. */
  lemma ToolCallsRoundTrip(calls: seq<string>)
    requires calls != [] && calls != [""]
    requires forall i :: 0 <= i < |calls| ==> ',' !in calls[i]
    ensures DecodeToolCalls(EncodeToolCalls(Some(calls))) == Some(calls)
  {
    SplitJoin(calls, ',');
    assert Join(calls, [',']) != "" by {
      if |calls| == 1 {
        assert calls[0] != "";
      } else {
        JoinStart(calls, ",");
      }
    }
  }

  /** A stored non-empty text survives being read and written again. */
  lemma StoredToolCallsRoundTrip(stored: string)
    requires stored != ""
    ensures EncodeToolCalls(DecodeToolCalls(Some(stored))) == Some(stored)
  {
  }

  /** Where the round trip fails: the list holding one empty name is stored
      as the empty text, which reads back as no list. */
  lemma EmptyNameLost()
    ensures EncodeToolCalls(Some([""])) == Some("")
    ensures DecodeToolCalls(EncodeToolCalls(Some([""]))) == None
  {
  }

  /** Nor does a list with a comma inside a name read back as itself. */
  lemma CommaNameSplit(calls: seq<string>, i: nat)
    requires i < |calls| && ',' in calls[i]
    ensures DecodeToolCalls(EncodeToolCalls(Some(calls))) != Some(calls)
  {
  }

  /** A row of the `messages` table, as the SELECT of both readers returns
      it; timestamps are already rendered by `isoformat`. */
  datatype MessageRow = MessageRow(
    id: string, role: string, content: string,
    responseTimeMs: Option<int>, contextUsed: Option<bool>, toolCalls: Option<string>,
    errorOccurred: Option<bool>, errorType: Option<string>, createdAt: Option<string>)

  /** A row of the `chats` table. */
  datatype ChatRow = ChatRow(id: string, title: string, createdAt: Option<string>, updatedAt: Option<string>)

  /** The row `save_message` writes; `createdAt` is the time the database
      assigns. */
  function SavedRow(
    messageId: string, role: string, content: string,
    responseTimeMs: Option<int>, contextUsed: Option<bool>, toolCalls: Option<seq<string>>,
    errorOccurred: bool, errorType: Option<string>, createdAt: Option<string>): (r: MessageRow)
    ensures r.toolCalls == EncodeToolCalls(toolCalls) && r.errorOccurred == Some(errorOccurred)
    ensures r.id == messageId && r.content == content && r.responseTimeMs == responseTimeMs
  {
    MessageRow(messageId, role, content, responseTimeMs, contextUsed, EncodeToolCalls(toolCalls),
      Some(errorOccurred), errorType, createdAt)
  }

  /** The `metadata` dictionary of a message as read back. */
  datatype Metadata = Metadata(
    responseTimeMs: Option<int>, contextUsed: Option<bool>, toolCalls: Option<seq<string>>,
    errorOccurred: Option<bool>, errorType: Option<string>)

  /** A message dictionary; `createdAt` is `None` when the key is absent and
      `Some(t)` when it is present with value `t`. */
  datatype MessageDict = MessageDict(id: string, role: string, content: string, metadata: Metadata, createdAt: Option<Option<string>>)

  datatype ChatDict = ChatDict(id: string, title: string, createdAt: Option<string>, updatedAt: Option<string>, messages: seq<MessageDict>)

  /** The dictionary built for one message row; `withCreatedAt` tells
      `get_chat_with_messages` (true) from `get_chats` (false). */
  function DecodeMessage(row: MessageRow, withCreatedAt: bool): (d: MessageDict)
    ensures d.id == row.id && d.role == row.role && d.content == row.content
    ensures d.metadata.toolCalls == DecodeToolCalls(row.toolCalls)
    ensures d.createdAt.Some? <==> withCreatedAt
    ensures withCreatedAt ==> d.createdAt == Some(row.createdAt)
  {
    MessageDict(row.id, row.role, row.content,
      Metadata(row.responseTimeMs, row.contextUsed, DecodeToolCalls(row.toolCalls), row.errorOccurred, row.errorType),
      if withCreatedAt then Some(row.createdAt) else None)
  }

  /** The two readers build the same message dictionary except that only
      `get_chat_with_messages` carries `created_at`. */
  lemma DecodingsAgree(row: MessageRow)
    ensures DecodeMessage(row, true) == DecodeMessage(row, false).(createdAt := Some(row.createdAt))
    ensures DecodeMessage(row, false).createdAt == None
  {
  }

  /** A message saved with a list of tool calls that survives the round trip
      is read back with that list; one saved with an empty list, with none. */
  lemma SaveThenRead(
    messageId: string, role: string, content: string,
    responseTimeMs: Option<int>, contextUsed: Option<bool>, toolCalls: seq<string>,
    errorOccurred: bool, errorType: Option<string>, createdAt: Option<string>, withCreatedAt: bool)
    requires toolCalls != [""] && forall i :: 0 <= i < |toolCalls| ==> ',' !in toolCalls[i]
    ensures var d := DecodeMessage(SavedRow(messageId, role, content, responseTimeMs, contextUsed,
        Some(toolCalls), errorOccurred, errorType, createdAt), withCreatedAt);
      d.metadata.toolCalls == (if toolCalls == [] then None else Some(toolCalls)) &&
      d.metadata.errorOccurred == Some(errorOccurred) && d.content == content
  {
    if toolCalls != [] {
      ToolCallsRoundTrip(toolCalls);
    }
  }

  function DecodeMessages(rows: seq<MessageRow>, withCreatedAt: bool): (r: seq<MessageDict>)
    ensures |r| == |rows| && forall j :: 0 <= j < |rows| ==> r[j] == DecodeMessage(rows[j], withCreatedAt)
  {
    seq(|rows|, j requires 0 <= j < |rows| => DecodeMessage(rows[j], withCreatedAt))
  }

  lemma DecodeMessagesSnoc(rows: seq<MessageRow>, row: MessageRow, withCreatedAt: bool)
    ensures DecodeMessages(rows + [row], withCreatedAt) == DecodeMessages(rows, withCreatedAt) + [DecodeMessage(row, withCreatedAt)]
  {
  }

  /** The chat dictionary for a chat row and its message rows. */
  function ChatOf(row: ChatRow, messageRows: seq<MessageRow>, withCreatedAt: bool): ChatDict
  {
    ChatDict(row.id, row.title, row.createdAt, row.updatedAt, DecodeMessages(messageRows, withCreatedAt))
  }

  /** The message rows the per-chat query returns: none for a chat without
      messages. */
  function RowsFor(messageRows: map<string, seq<MessageRow>>, chatId: string): seq<MessageRow>
  {
    if chatId in messageRows then messageRows[chatId] else []
  }

  /** What `get_chats` returns for the rows of its queries. */
  function ChatsOf(chatRows: seq<ChatRow>, messageRows: map<string, seq<MessageRow>>): (r: seq<ChatDict>)
    ensures |r| == |chatRows|
    ensures forall i :: 0 <= i < |chatRows| ==> r[i] == ChatOf(chatRows[i], RowsFor(messageRows, chatRows[i].id), false)
  {
    seq(|chatRows|, i requires 0 <= i < |chatRows| => ChatOf(chatRows[i], RowsFor(messageRows, chatRows[i].id), false))
  }

  lemma ChatsOfSnoc(chatRows: seq<ChatRow>, row: ChatRow, messageRows: map<string, seq<MessageRow>>)
    ensures ChatsOf(chatRows + [row], messageRows) == ChatsOf(chatRows, messageRows) + [ChatOf(row, RowsFor(messageRows, row.id), false)]
  {
  }

  /** A chat of `get_chats` and the same chat from `get_chat_with_messages`
      differ only in the messages' `created_at`. */
  lemma ReadersAgree(row: ChatRow, messageRows: seq<MessageRow>)
    ensures var a, b := ChatOf(row, messageRows, false), ChatOf(row, messageRows, true);
      a.id == b.id && a.title == b.title && a.createdAt == b.createdAt && a.updatedAt == b.updatedAt &&
      |a.messages| == |b.messages| &&
      forall j :: 0 <= j < |a.messages| ==> b.messages[j] == a.messages[j].(createdAt := Some(messageRows[j].createdAt))
  {
  }

  /** `get_chats`: every chat row, in the order the query returns them,
      each with its messages decoded. */
  method GetChats(chatRows: seq<ChatRow>, messageRows: map<string, seq<MessageRow>>) returns (chats: seq<ChatDict>)
    ensures chats == ChatsOf(chatRows, messageRows)
  {
    chats := [];
    var i := 0;
    while i < |chatRows|
      invariant 0 <= i <= |chatRows|
      invariant chats == ChatsOf(chatRows[..i], messageRows)
    {
      var row := chatRows[i];
      var rows := RowsFor(messageRows, row.id);
      var messages := ReadMessages(rows, false);
      assert ChatsOf(chatRows[..i + 1], messageRows) == chats + [ChatOf(row, rows, false)] by {
        assert chatRows[..i + 1] == chatRows[..i] + [row];
        ChatsOfSnoc(chatRows[..i], row, messageRows);
      }
      chats := chats + [ChatDict(row.id, row.title, row.createdAt, row.updatedAt, messages)];
      i := i + 1;
    }
    assert chatRows[..|chatRows|] == chatRows;
  }

  /** `get_chat_with_messages`: nothing when the chat row is missing, else
      the chat with its messages, each carrying `created_at`. */
  method GetChatWithMessages(chatRow: Option<ChatRow>, messageRows: seq<MessageRow>) returns (chat: Option<ChatDict>)
    ensures chatRow.None? ==> chat.None?
    ensures chatRow.Some? ==> chat == Some(ChatOf(chatRow.value, messageRows, true))
  {
    if chatRow.None? {
      return None;
    }
    var messages := ReadMessages(messageRows, true);
    var row := chatRow.value;
    chat := Some(ChatDict(row.id, row.title, row.createdAt, row.updatedAt, messages));
  }

  /** The inner loop both readers run over the message rows. */
  method ReadMessages(rows: seq<MessageRow>, withCreatedAt: bool) returns (messages: seq<MessageDict>)
    ensures messages == DecodeMessages(rows, withCreatedAt)
  {
    messages := [];
    var j := 0;
    while j < |rows|
      invariant 0 <= j <= |rows|
      invariant messages == DecodeMessages(rows[..j], withCreatedAt)
    {
      var row := rows[j];
      var toolCalls := if row.toolCalls.Some? && row.toolCalls.value != "" then Split(row.toolCalls.value, ',') else [];
      var metadata := Metadata(row.responseTimeMs, row.contextUsed, if toolCalls != [] then Some(toolCalls) else None,
        row.errorOccurred, row.errorType);
      DecodeMessagesSnoc(rows[..j], row, withCreatedAt);
      assert rows[..j + 1] == rows[..j] + [row];
      messages := messages + [MessageDict(row.id, row.role, row.content, metadata,
        if withCreatedAt then Some(row.createdAt) else None)];
      j := j + 1;
    }
    assert rows[..|rows|] == rows;
  }
}
