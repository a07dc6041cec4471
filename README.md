# ChatGPT-style chat client and policy agent: verified model of the core logic

This project models in Dafny the parts of the repository that hold real logic.
Everything else in the repository is presentation, or a thin wrapper over
FastAPI, Postgres, Chroma or an LLM.

- **Chat list** (`web/src/context/ChatContext.tsx`). Class `ChatStore` holds the
  chats (newest first) and the active chat id. It runs `createNewChat`,
  `selectChat`, `addMessage` with its auto-title rule, `updateChatTitle` and
  `deleteChat`. Each transition is a pure function of the old list.
- **Chat search dialog** (`web/src/components/SearchChatsModal.tsx`). Covers the
  case-insensitive query filter and `groupChatsByDate`, which is a loop into five
  age buckets proved equal to a specification. It also covers clearing the query
  on selection.
- **Composer** (`web/src/components/ChatInput.tsx`). Covers the trim-and-send
  guard, Enter versus Shift+Enter, the send and microphone buttons, and the
  toolkit pop-up with its mobile subset.
- **Images page** (`web/src/app/images/page.tsx`). Covers the two six-per-page
  carousels, their clamped paging indexes and direction state, the visible
  slices and the disabled buttons.
- **Apps page** (`web/src/app/apps/page.tsx`). Covers the name and description
  search filter.
- **Policy ingest** (`agent/ingest_policies.py`). Covers the UTF-8 size filter,
  parsing of chunk file names, id construction, the three parallel lists and
  the batches of 100 handed to the vector store.
- **Policy search tool** (`agent/tools.py`). Covers the numbered, truncated
  text report built from a query's results, and the error texts.
- **Database layer** (`api/db_service.py`). Covers the comma encoding of a
  message's tool-call list and the dictionaries the two readers build from
  query rows.

Two helper modules hold the shared vocabulary:

- `Seqs`: an option type, an order-preserving filter and concatenation.
- `Text`: ASCII lower-casing, JavaScript's `trim`, substring search, decimal
  rendering, and Python's `split`/`join` on one character.

Identifiers, clocks and "start of today" are parameters. The results of
database, vector-store and file-system calls are inputs.

## Model

| member | source | states |
|---|---|---|
| ChatContext.FindChat | web/src/context/ChatContext.tsx:50 | `find` gives nothing exactly when no chat has the id, and otherwise the first chat that has it |
| ChatContext.ActiveChatOf | web/src/context/ChatContext.tsx:50 | `activeChat` is null exactly when the active id is null or matches no chat; otherwise it is the first listed chat with that id |
| ChatContext.TargetChatId | web/src/context/ChatContext.tsx:68-70 | an absent or empty `chatId` falls back to the active id; there is no target exactly when both are absent or empty, and a target is never empty |
| ChatContext.AutoTitle | web/src/context/ChatContext.tsx:88 | the title is the content when it has at most 30 characters; otherwise its first 30 characters followed by "...", so never longer than 33 |
| ChatContext.AppendMessage | web/src/context/ChatContext.tsx:77-89 | the target chat keeps its id and creation time and gets the message appended at the end of its messages |
| ChatContext.ShouldUpdateTitleIff | web/src/context/ChatContext.tsx:81-83 | the "exactly one user message after appending" rule holds iff the title is "New chat", the new message is from the user, and no earlier message is from the user |
| ChatContext.AppendMessageTitle | web/src/context/ChatContext.tsx:81-88 | the title becomes the truncated content exactly under the auto-title rule, and is unchanged otherwise |
| ChatContext.WithMessage | web/src/context/ChatContext.tsx:77-90 | the list keeps its length and order. Only the chats with the target id change, each by appending the message. Ids and creation times are kept, and an unknown id leaves the list unchanged |
| ChatContext.Retitled | web/src/context/ChatContext.tsx:93-97 | only chats with the id change, and only in their title; an unknown id leaves the list unchanged |
| ChatContext.Without | web/src/context/ChatContext.tsx:108 | every chat with the id is removed. The others stay with their multiplicities as a subsequence in order, and an absent id changes nothing |
| ChatContext.ActiveAfterDelete | web/src/context/ChatContext.tsx:109-111 | deleting the active chat activates the first remaining chat, or none if none remain; otherwise the active id is kept |
| ChatContext.ChatStore.constructor | web/src/context/ChatContext.tsx:46-48 | no chats, no active chat, not loading |
| ChatContext.ChatStore.ActiveChat | web/src/context/ChatContext.tsx:50 | definition: `ActiveChatOf` of the store's chats and active id; its properties are the contract of `ActiveChatOf` |
| ChatContext.ChatStore.CreateNewChat | web/src/context/ChatContext.tsx:52-62 | exactly one "New chat" chat without messages is prepended before the unchanged old list. It becomes active and its id is returned |
| ChatContext.ChatStore.SelectChat | web/src/context/ChatContext.tsx:64-66 | only the active id changes, to the given id |
| ChatContext.ChatStore.AddMessage | web/src/context/ChatContext.tsx:68-91 | with no target nothing changes; otherwise the list becomes `WithMessage` of the old list, and the active id is kept |
| ChatContext.ChatStore.UpdateChatTitle | web/src/context/ChatContext.tsx:93-97 | the list becomes `Retitled` of the old list; nothing else changes |
| ChatContext.ChatStore.DeleteChat | web/src/context/ChatContext.tsx:107-113 | the list becomes `Without` of the old list and the active id is reassigned as `ActiveAfterDelete` says |
| ChatContext.ChatStore.SetIsLoading | web/src/context/ChatContext.tsx:126 | only the loading flag changes |
| SearchChatsModal.BucketOfBounds | web/src/components/SearchChatsModal.tsx:21-46 | each bucket is exactly an interval with an inclusive lower bound at today, one day, seven days and thirty days back; everything earlier is Older |
| SearchChatsModal.BucketOf | web/src/components/SearchChatsModal.tsx:37-46 | definition of the if-chain; its properties are `BucketOfBounds` and `BucketMonotone` |
| SearchChatsModal.BucketMonotone | web/src/components/SearchChatsModal.tsx:37-46 | an earlier chat never lands in a newer bucket than a later chat |
| SearchChatsModal.GroupsUpToCount | web/src/components/SearchChatsModal.tsx:34-57 | the first n groups hold each chat as often as the input when its bucket is among the first n, and never otherwise |
| SearchChatsModal.GroupsArePartition | web/src/components/SearchChatsModal.tsx:34-57 | the groups concatenated are a permutation of the input: every chat lands in exactly one group |
| SearchChatsModal.GroupsUpToWellFormed | web/src/components/SearchChatsModal.tsx:50-57 | at most n groups, none empty. Each group is one bucket's chats under that bucket's label, with labels in strictly increasing bucket order |
| SearchChatsModal.GroupsShape | web/src/components/SearchChatsModal.tsx:34-57 | at most five groups, none empty, labels in the order Today, Yesterday, Previous 7 Days, Previous 30 Days, Older. Each group holds the input's chats of one bucket as a subsequence in input order |
| SearchChatsModal.GroupsEmptyIff | web/src/components/SearchChatsModal.tsx:155-158 | there are no groups, so the empty message shows, exactly when there are no chats |
| SearchChatsModal.GroupChatsByDate | web/src/components/SearchChatsModal.tsx:19-58 | the forEach-and-push loop with the five result pushes returns exactly the specified groups |
| SearchChatsModal.InBucketStep | web/src/components/SearchChatsModal.tsx:34-48 | one turn of the loop appends the chat to its own bucket and to no other |
| SearchChatsModal.FilteredChats | web/src/components/SearchChatsModal.tsx:94-101 | a blank query returns the list unchanged. Otherwise it keeps exactly the chats whose lowered title or some lowered message contains the lowered query, each as often as before, as a subsequence in order |
| SearchChatsModal.MatchesQuery | web/src/components/SearchChatsModal.tsx:97-100 | definition of the filter's test; `FilteredChats` states which chats it keeps |
| SearchChatsModal.QueryIsNotTrimmed | web/src/components/SearchChatsModal.tsx:95-96 | the query is trimmed only for the blank test: " a" does not find a chat titled "a" |
| SearchChatsModal.SearchModal.constructor | web/src/components/SearchChatsModal.tsx:61 | the query starts empty |
| SearchChatsModal.SearchModal.SetQuery | web/src/components/SearchChatsModal.tsx:132 | the query becomes the typed text |
| SearchChatsModal.SearchModal.Groups | web/src/components/SearchChatsModal.tsx:103-105 | definition: the date groups of the filtered chats; its properties are `GroupsShape`, `GroupsArePartition` and `GroupsEmptyIff` |
| SearchChatsModal.SearchModal.EmptyText | web/src/components/SearchChatsModal.tsx:158 | definition: "No chats found" for a non-empty query, else "No chats yet" |
| SearchChatsModal.SearchModal.HandleChatClick | web/src/components/SearchChatsModal.tsx:107-111 | the chosen id is passed on and the query becomes empty |
| SearchChatsModal.SearchModal.HandleNewChat | web/src/components/SearchChatsModal.tsx:113-117 | the query becomes empty |
| ChatInput.DisplayedItems | web/src/components/ChatInput.tsx:67-69 | on desktop every item is shown. On mobile exactly the `showOnMobile` items are shown, with their multiplicities, in their order |
| ChatInput.MobileToolkit | web/src/components/ChatInput.tsx:58-69 | the mobile pop-up shows "Add photos & files" then "More" |
| ChatInput.HasText | web/src/components/ChatInput.tsx:71 | `hasText` holds iff the input is not all white space |
| ChatInput.SendDisabled | web/src/components/ChatInput.tsx:143 | the send button is disabled iff the input is all white space or `disabled` is set |
| ChatInput.MicShown | web/src/components/ChatInput.tsx:127 | the microphone shows iff the input is all white space and the view is not mobile |
| ChatInput.Submission | web/src/components/ChatInput.tsx:45-46 | something is sent iff the input is not all white space and the composer is enabled; what is sent is the trimmed input, which is non-empty with no white space at either end |
| ChatInput.SubmitsOnKey | web/src/components/ChatInput.tsx:52 | definition of the Enter-without-Shift test; `Composer.HandleKeyDown` states its effect |
| ChatInput.SendButtonMatchesSubmit | web/src/components/ChatInput.tsx:139-143 | the send button is enabled exactly when submitting would send |
| ChatInput.MicOrSend | web/src/components/ChatInput.tsx:126-143 | the microphone and an enabled send button never show together |
| ChatInput.Composer.constructor | web/src/components/ChatInput.tsx:24-25 | empty input, pop-up closed |
| ChatInput.Composer.SetInput | web/src/components/ChatInput.tsx:120 | the input becomes the typed text and the pop-up is untouched |
| ChatInput.Composer.HandleSubmit | web/src/components/ChatInput.tsx:43-49 | what `onSend` receives is `Submission` of the input; the input is cleared exactly when something is sent and kept otherwise |
| ChatInput.Composer.HandleKeyDown | web/src/components/ChatInput.tsx:51-56 | Enter without Shift submits; Shift+Enter and other keys send nothing and leave the input unchanged |
| ChatInput.Composer.ToggleToolkit | web/src/components/ChatInput.tsx:82 | the "+" button flips the pop-up |
| ChatInput.Composer.PickToolkitItem | web/src/components/ChatInput.tsx:102 | choosing an item closes the pop-up |
| ChatInput.Composer.MouseDown | web/src/components/ChatInput.tsx:29-41 | a mouse-down closes the open pop-up unless it lands inside the pop-up or on the "+" button |
| ImagesPage.Scrolled | web/src/app/images/page.tsx:95-111 | the index moves only towards the pressed side and by at most a page. It moves a whole page unless that would pass an end, and then stops at the end |
| ImagesPage.ScrollStaysInBounds | web/src/app/images/page.tsx:97-100 | from an index in `[0, len - perPage]` either scroll stays in that range |
| ImagesPage.ScrollMovesIffEnabled | web/src/app/images/page.tsx:184-191 | from an in-bounds index a scroll leaves the index unchanged exactly when that side's button is disabled (`i == 0`, `i >= len - perPage`) |
| ImagesPage.LeftDisabled | web/src/app/images/page.tsx:184 | definition of the left-arrow test `index === 0`; `ScrollMovesIffEnabled` ties it to the scroll |
| ImagesPage.RightDisabled | web/src/app/images/page.tsx:191 | definition of the right-arrow test `index >= length - perPage`; `ScrollMovesIffEnabled` ties it to the scroll |
| ImagesPage.RightThenLeft | web/src/app/images/page.tsx:97-100 | with at most two pages, right then left returns to the first page |
| ImagesPage.Slice | web/src/app/images/page.tsx:113-114 | JavaScript `slice` with clamped bounds: an in-range slice is the subsequence between the bounds |
| ImagesPage.Visible | web/src/app/images/page.tsx:113-114 | the visible window is `[i, i + perPage)`, cut at the end, and has exactly `perPage` entries when `i` is in bounds |
| ImagesPage.StylePages | web/src/app/images/page.tsx:15-28 | the twelve styles form two pages; right moves from 0 to 6, which shows the last six, where right is disabled |
| ImagesPage.Page.constructor | web/src/app/images/page.tsx:80-84 | empty prompt, both indexes and directions zero, and both carousels on an in-bounds page |
| ImagesPage.Page.SetPrompt | web/src/app/images/page.tsx:158 | only the prompt changes |
| ImagesPage.Page.SendDisabled | web/src/app/images/page.tsx:169 | definition: the send button is disabled exactly when the prompt is empty |
| ImagesPage.Page.ScrollStyles | web/src/app/images/page.tsx:95-102 | the direction becomes 1 or -1 on every call and the style index becomes `Scrolled` of the old one. Validity is kept and the other carousel and the prompt are untouched |
| ImagesPage.Page.ScrollDiscover | web/src/app/images/page.tsx:104-111 | the same for the discover carousel |
| ImagesPage.Page.FullPages | web/src/app/images/page.tsx:113-114 | on a valid page both carousels show six entries |
| AppsPage.FilteredApps | web/src/app/apps/page.tsx:53-56 | an app is kept iff its lowered name or description contains the lowered query. Kept apps keep their multiplicity, as a subsequence in order |
| AppsPage.AppMatches | web/src/app/apps/page.tsx:54-55 | definition of the name-or-description test; `FilteredApps` states which apps it keeps |
| AppsPage.EmptyQueryListsAll | web/src/app/apps/page.tsx:53-56 | an empty query lists every app in order |
| AppsPage.QueryCaseInsensitive | web/src/app/apps/page.tsx:54-55 | queries with the same lower-casing list the same apps |
| AppsPage.ListedApps | web/src/app/apps/page.tsx:149 | the grid lists exactly the matching apps of the constant list |
| AppsPage.ListedAppsIgnoreTab | web/src/app/apps/page.tsx:47-56 | the listed apps do not depend on the active tab; this holds because `ListedApps` ignores its `activeTab` argument, as `filteredApps` does |
| IngestPolicies.CharBytes | agent/ingest_policies.py:20 | a character takes one to four UTF-8 bytes, and one exactly when it is ASCII |
| IngestPolicies.Utf8Length | agent/ingest_policies.py:20 | the encoded length is between the character count and four times it |
| IngestPolicies.Utf8LengthAppend | agent/ingest_policies.py:20 | the encoded length of a concatenation is the sum of the lengths |
| IngestPolicies.Utf8LengthAscii | agent/ingest_policies.py:20 | an ASCII text takes one byte per character |
| IngestPolicies.Kept | agent/ingest_policies.py:20-22 | definition of the size filter: the UTF-8 length is at most the per-document limit; `EntriesSound` and `EntriesComplete` state its effect |
| IngestPolicies.SplitFirst | agent/ingest_policies.py:27 | `split(sep, 1)` gives one part (the whole text) iff there is no separator, else the separator-free text before the first one and the rest |
| IngestPolicies.BeforeLast | agent/ingest_policies.py:29 | `rsplit(pat, 1)[0]` is a prefix: the whole text iff the pattern never occurs, else the text before its last occurrence |
| IngestPolicies.ChunkNumber | agent/ingest_policies.py:27-28 | the chunk number is the prefix of the stem up to its first "-"; the `ch{i}` fallback is unreachable |
| IngestPolicies.RawPolicyName | agent/ingest_policies.py:29 | the whole stem when it has no "-", else the text after the first "-" cut before its last "-len" |
| IngestPolicies.MetadataOf | agent/ingest_policies.py:32-36 | source is the file name and chunk the chunk number; the policy name is the raw name with every "_" replaced by a space and every other character kept |
| IngestPolicies.ParseStem | agent/ingest_policies.py:26-29 | a stem `num-name-len<count>` without other "-" gives chunk `num` and raw name `name` |
| IngestPolicies.ParseExample | agent/ingest_policies.py:26-29 | "ch1-academic_credit_policy-len477" gives "ch1" and "academic_credit_policy" |
| IngestPolicies.MetadataExample | agent/ingest_policies.py:26-36 | that file is stored with chunk "ch1" and policy name "academic credit policy" |
| IngestPolicies.IdInjective | agent/ingest_policies.py:37 | two ids are equal only for the same stem and the same position |
| IngestPolicies.Id | agent/ingest_policies.py:37 | definition of `f"{filename}_{i}"`; its property is `IdInjective` |
| IngestPolicies.EntriesSound | agent/ingest_policies.py:16-37 | every stored entry comes from a file within the size limit, at the position it records |
| IngestPolicies.Entries | agent/ingest_policies.py:16-22 | at most one entry per file; its properties are `EntriesSound`, `EntriesOrdered`, `EntriesComplete` and `IdsDistinct` |
| IngestPolicies.EntriesOrdered | agent/ingest_policies.py:16 | entries appear in increasing file position |
| IngestPolicies.EntriesComplete | agent/ingest_policies.py:16-22 | every file within the limit has its entry, numbered by its position among all files, skipped ones included |
| IngestPolicies.IdsDistinct | agent/ingest_policies.py:37 | the ids of the stored documents are pairwise different |
| IngestPolicies.Batch | agent/ingest_policies.py:41-47 | a batch holds at most 100 items and is non-empty when it starts inside the list |
| IngestPolicies.BatchesConcat | agent/ingest_policies.py:41-47 | the first m batches, concatenated, are the first `min(100 m, n)` items |
| IngestPolicies.BatchesCover | agent/ingest_policies.py:40-47 | the `ceil(n/100)` batches are non-empty and, concatenated, are exactly the list: contiguous, in order, each item once |
| IngestPolicies.Ingest | agent/ingest_policies.py:8-47 | the three lists are the projections of the entries and have equal lengths; the batches are the ceil(n/100) aligned slices of all three |
| IngestPolicies.CollectChunks | agent/ingest_policies.py:16-37 | the first loop builds exactly the documents, metadatas and ids of the entries |
| IngestPolicies.MakeBatches | agent/ingest_policies.py:40-47 | the second loop emits ceil(n/100) upserts, the b-th holding slice b of each list |
| SearchTools.ErrorText | agent/tools.py:53-54 | an error report starts with "Error searching policies: " |
| SearchTools.Get | agent/tools.py:40-41 | `meta.get(key, default)` is the stored value when the key is present and the default otherwise |
| SearchTools.Excerpt | agent/tools.py:48 | the excerpt is the document when it has at most 500 characters, else its first 500 followed by "..." |
| SearchTools.Min3 | agent/tools.py:31-36 | `zip` stops at the shortest of the three lists |
| SearchTools.Entries | agent/tools.py:31-49 | one block for each of the first k results; `EntriesInOrder` states that block j is the entry numbered j + 1 |
| SearchTools.Formatted | agent/tools.py:30-51 | definition: the blocks of the zipped lists joined with "\n---\n", or the `.get` error at a missing record; `FormatResults` is proved equal to it |
| SearchTools.Heading | agent/tools.py:44 | definition of the "**Result n**" line; `EntryHeading` states that each block starts with it |
| SearchTools.Entry | agent/tools.py:43-49 | definition of one block; its properties are `EntryHeading` |
| SearchTools.Details | agent/tools.py:40-49 | definition of the policy, source, relevance and excerpt lines, with `Get` and `Excerpt` giving the defaults and the 500-character cut |
| SearchTools.StageOf | agent/tools.py:20-35 | a raised exception is passed on with its message. There is nothing to format exactly when the result is falsy, has no documents or has an empty first list of documents. A missing metadatas or distances list gives Python's `None`-subscript error, and an empty one gives the index error, and formatting starts only with documents, metadatas and distances present, whose first lists are taken |
| SearchTools.Report | agent/tools.py:20-54 | nothing to format gives exactly the no-results text. A failure gives the error prefix with its message, and otherwise the report is `Formatted` of the first lists |
| SearchTools.ReportEmpty | agent/tools.py:27-28 | a falsy result, missing documents, an empty document list or an empty first list gives exactly "No relevant policies found for your query." |
| SearchTools.ReportFormatsFirstLists | agent/tools.py:30-51 | with all three lists present and documents found, the report is `Formatted` of the first list of each |
| SearchTools.EntriesInOrder | agent/tools.py:31-49 | block j is the entry of result j numbered j + 1 |
| SearchTools.EntryHeading | agent/tools.py:44 | each block begins with its `**Result n**` heading |
| SearchTools.RaisedIsReported | agent/tools.py:53-54 | any exception yields the prefix followed by its message |
| SearchTools.SearchPolicies | agent/tools.py:20-54 | the tool returns exactly `Report` of the query's outcome, including the Python errors for a missing list or record |
| SearchTools.FormatResults | agent/tools.py:30-51 | the loop yields the numbered blocks joined by "\n---\n", or the error for a missing metadata record |
| DbService.EncodeToolCalls | api/db_service.py:39 | an absent or empty list is stored as no value, any other as its elements joined with "," |
| DbService.DecodeToolCalls | api/db_service.py:83 | no value or "" reads as no list; any other text as a non-empty list of comma-free parts that joins back to the text |
| DbService.ToolCallsRoundTrip | api/db_service.py:128-136 | a non-empty, comma-free list other than `[""]` reads back as itself |
| DbService.StoredToolCallsRoundTrip | api/db_service.py:39 | a stored non-empty text is written back unchanged after being read |
| DbService.EmptyNameLost | api/db_service.py:91 | `[""]` is stored as "" and reads back as no list |
| DbService.CommaNameSplit | api/db_service.py:83 | a list with a comma in a name never reads back as itself |
| DbService.SavedRow | api/db_service.py:39-58 | `save_message` writes the encoded tool calls and the error flag as given |
| DbService.DecodeMessage | api/db_service.py:127-141 | a message dict has the row's id, role and content and the decoded tool calls; `created_at` is present iff the reader is `get_chat_with_messages` |
| DbService.DecodeMessages | api/db_service.py:126-141 | one message dict per row, in row order, each `DecodeMessage` of its row |
| DbService.ChatOf | api/db_service.py:97-103 | definition of the chat dict from its row and decoded messages; its properties are `ReadersAgree` and `SaveThenRead` |
| DbService.ChatsOf | api/db_service.py:81-103 | one chat dict per chat row, in query order, each built from that chat's own message rows |
| DbService.DecodingsAgree | api/db_service.py:84-95 | the two readers' message dicts differ only in `created_at` |
| DbService.SaveThenRead | api/db_service.py:28-58 | a saved message reads back with its comma-free tool-call list (none for an empty list), its error flag and its content |
| DbService.ReadersAgree | api/db_service.py:143-149 | a chat from either reader has the same fields and messages except the messages' `created_at` |
| DbService.GetChats | api/db_service.py:62-104 | `get_chats` returns every chat row in query order with its messages decoded without `created_at` |
| DbService.GetChatWithMessages | api/db_service.py:107-149 | nothing for a missing chat row, else the chat with messages carrying `created_at` |
| DbService.ReadMessages | api/db_service.py:126-141 | the inner loop decodes every message row in order |
| Text.Trim | web/src/components/ChatInput.tsx:45 | `trim` yields the empty string iff the text is all white space, and otherwise starts and ends with a non-space |
| Text.TrimIsInfix | web/src/components/ChatInput.tsx:46 | the trimmed text is a contiguous part of the input with only white space around it |
| Text.TrimIdempotent | web/src/components/SearchChatsModal.tsx:95 | trimming twice equals trimming once |
| Text.LowerStr | web/src/components/SearchChatsModal.tsx:96 | lower-casing keeps the length and lowers each character |
| Text.NatToString | agent/ingest_policies.py:37 | the decimal rendering is non-empty and all digits, one digit exactly below 10 |
| Text.NatToStringInjective | agent/ingest_policies.py:37 | distinct positions have distinct renderings |
| Text.ReplaceChar | agent/ingest_policies.py:34 | every underscore becomes a space and every other character stays |
| Text.IndexOf | agent/ingest_policies.py:27 | the first position of a character, or none iff it does not occur |
| Text.LastIndexOf | agent/ingest_policies.py:29 | the last occurrence of a pattern, or none iff it never occurs |
| Text.Split | api/db_service.py:83 | `split` yields at least one part and no part holds the separator |
| Text.JoinSplit | api/db_service.py:83 | joining the parts of a split with the separator gives back the text |
| Text.SplitJoin | api/db_service.py:39 | splitting the join of separator-free parts gives back the parts |
| Seqs.FilterMultiset | web/src/context/ChatContext.tsx:108 | `filter` keeps each satisfying element as often as the input holds it, and drops the rest |
| Seqs.FilterIsSubsequence | web/src/components/SearchChatsModal.tsx:97 | what `filter` keeps is a subsequence of its input |

## Left out

- Network, database, vector-store and file-system calls are left out. This covers the `fetch` DELETE in `deleteChat`, the SQL and its ordering, the `ON CONFLICT` upsert, `collection.query`/`upsert`/`count`, and the glob and file reads. Their results are inputs, and what they receive is returned.
- `print` and `console.error` are left out: they change no state.
- `crypto.randomUUID()`, `new Date()` and the local start of today are parameters.
- The relevance score `round(1 - distance, 3)` is floating point, so it is taken as already-rendered text. A `None` distance, which would raise a `TypeError`, is not modelled.
- `isoformat` is left out: timestamps read from the database are already text.
- Unicode `toLowerCase` is modelled as ASCII lower-casing. `trim` removes the ASCII white space (space, tab, line feed, carriage return, vertical tab, form feed) but not the other Unicode space characters.
- JavaScript's UTF-16 `slice(0, 30)` is modelled as a prefix of 30 characters.
- React details are left out: render timing, effects, `useMemo`, and the stale `activeChatId` closure in `addMessage` and `deleteChat`. Each operation is one atomic step on the latest state.
- The dialog's `onClose`, `onNewChat` and `onSelectChat` callbacks are left out; `HandleChatClick` returns the id passed to `onSelectChat`. The sidebar state, the resize listeners and `isMobile` are left out too, and `isMobile` is a parameter.
- Motion variants, icons, pictures and styling are left out.
- A chunk file is its stem and its text, so the file name is the stem with ".txt" appended. Metadata values are strings and documents are never `None`.
- IngestPolicies.MakeBatches: requires the three lists to have equal lengths, which they always do when built by `CollectChunks`.
- The other `ChatDBService` operations are left out: `create_chat`, `update_chat_title`, `delete_chat` and the rest are single SQL statements without local logic. `save_message`'s `chat_id` is not part of the modelled row.
- api/main.py, api/schemas.py, agent/chroma_setup.py and agent/chat_agent.py are not part of this model: they are routing, configuration, client setup and LLM calls.
- The presentation-only files are not part of this model: Sidebar, ChatMessage, the `ui` components, the layout, the demo home page and the Tailwind configuration.
- ChatInput.Composer.HandleKeyDown: `preventDefault` is left out.
- ChatInput.Composer.HandleKeyDown: only the key handler is modelled. The browser's implicit submission of the enclosing `<form onSubmit={handleSubmit}>` on Enter is not, so whether Shift+Enter in the `<input>` also submits through the form is not captured.
