# chat_ollama backend core, modelled in Dafny

This project models the part of the chat backend that keeps and searches messages. It also models two small string components that sit beside it.

- **Message store** (`Store`, from `backend/app/services/vector_store.py`).
  - The `VectorStore` class holds an append-only sequence of message records and, per chat, a map from file id to bytes.
  - Its operations are:
    - `AddMessage`, `AddFile`
    - `SimilarMessages`: filter by chat, score, stable descending sort, Python slice to `limit`
    - `GetMessages`: filter by chat, stable sort by creation time
    - `ListChats`: group in first-seen order, latest creation time, title `Chat <first six characters>`
    - `GetFile`: two-level lookup that may find nothing
  - Each operation is specified by a function on the record sequence. Lemmas about those functions state what the store promises.
- **Chat orchestrator** (`Chat`, from `backend/app/services/chat_manager.py`).
  - The `ChatManager` class stores uploaded files in order.
  - It records the user message, retrieves context and composes the prompt from its seven fixed sections plus an optional file line.
  - It asks the language model for a reply and records the reply only when one comes back.
  - It lists chats, with a demo entry for an empty store, and renders a chat's history.
- **API key resolution and reply fallback** (`OpenAiKey`, from `backend/app/services/openai_client.py`).
  - A non-empty environment value wins.
  - Otherwise each `.env` text is scanned as the code does:
    - `splitlines`, then `strip`
    - blank and `#` lines skipped
    - `partition("=")`, then the key compared after stripping
    - the value cut at `#` and stripped of blanks, double quotes and single quotes
    - the first matching line decides, and its empty value means "no key"
  - The first file that decides wins.
  - `Generate` maps the API outcome to the reply, the apology for an empty text, or the error.
- **Identifier fallback** (`Uuid`, from `frontend/lib/id.ts`).
  - `FallbackId` fills a 16-byte array from the random draws, given as input.
  - It overwrites byte 6 and byte 8 in place to set the version field (section 4.1.3 of RFC 4122) to 4 and the variant field (section 4.1.1) to `10`, as section 4.4 prescribes for random identifiers.
  - It renders each byte as two lowercase hex digits and joins the 8-4-4-4-12 groups with `-`.
  - `Parse` reads such a text back. It is the inverse that the round-trip lemma uses.

Supporting modules:
- `Wrappers`: Option and Result.
- `Text`: `sep.join(parts)`.
- `Sorting`: Python's stable `list.sort(key=..., reverse=...)`, as a stable insertion sort, with lemmas for permutation, order, stability and the identity on sorted input.

Scores and collaborators are parameters:
- The similarity score is a deterministic function of (query text, record content). In the source it is the dot product of embeddings derived from the text alone. The store carries it as the `similarity` function.
- Message ids, file ids and timestamps come from `secrets.token_hex` and `datetime.utcnow`. In the model they are `Stamp`/`FileStamp` parameters.
- The language model (`llm`) and the tool-insight client (`insights`) are function-valued fields of `ChatManager`.

Three behaviours of the code worth knowing:
- The user message is recorded before the similarity search (`chat_manager.py:98-104`), so the search runs over a store that already holds it. `Chat.AugmentSeesOwnMessage` proves that the search is then never empty, that its first hit scores at least as high as the message scores against itself, and that the context is never the placeholder. `Chat.AugmentFindsOwnMessage` proves that the message itself is retrieved while the chat holds fewer than five earlier records. With more, earlier records of equal score can crowd it out, because the ranking is stable.
- When generation fails, the user message recorded during augmentation stays in the store (`chat_manager.py:72-74`). `Chat.ChatManager.GenerateResponse` states this.
- A `.env` line that is exactly `OPENAI_API_KEY`, with no `=`, matches. Its key is the whole line and its value is empty, so the scan stops with no key (`OpenAiKey.NoEqualsLine`). Every other line without `=` is skipped.

## Model

| member | source | states |
|---|---|---|
| Store.ChatRecords | backend/app/services/vector_store.py:88 | the list comprehension `[record for record in messages if record.chat_id == chat_id]` |
| Store.ScoreChat | backend/app/services/vector_store.py:50-55 | the `(score, record)` pairs the search loop appends, in store order |
| Store.Ranked | backend/app/services/vector_store.py:56 | `scored.sort(key=score, reverse=True)` |
| Store.Candidates | backend/app/services/vector_store.py:56-57 | the records of the ranked pairs, before slicing |
| Store.Similar | backend/app/services/vector_store.py:48-57 | the value `similar_messages` returns: the records of the ranked pairs sliced `[:limit]` |
| Store.PySlice | backend/app/services/vector_store.py:57 | Python's `s[:stop]`, a negative stop counting from the end |
| Store.History | backend/app/services/vector_store.py:87-90 | the chat's records sorted by `created_at` |
| Store.FirstSeen | backend/app/services/vector_store.py:60-62 | the key order of `by_chat`: each chat id at its first occurrence |
| Store.Title | backend/app/services/vector_store.py:70 | `f"Chat {chat_id[:6]}"` |
| Store.SummaryOf | backend/app/services/vector_store.py:66-72 | the summary dictionary of one group: id, title and the latest record's time |
| Store.Summaries | backend/app/services/vector_store.py:64-74 | the value `list_chats` returns, one summary per first-seen chat |
| Store.PutFile | backend/app/services/vector_store.py:78-79 | `files.setdefault(chat_id, {})[file_id] = content` on the map value |
| Store.VectorStore.constructor | backend/app/services/vector_store.py:24-27 | a new store has no messages and no files |
| Store.VectorStore.AddMessage | backend/app/services/vector_store.py:35-46 | exactly one record, with the given chat, author, content, id and time, is appended at the end; earlier records and the files are unchanged |
| Store.VectorStore.SimilarMessages | backend/app/services/vector_store.py:48-57 | the loop collects the chat's (score, record) pairs in store order; the result is their stable descending sort, sliced as Python slices `[:limit]` |
| Store.VectorStore.ListChats | backend/app/services/vector_store.py:59-74 | the result is `Summaries(messages)`: one summary per group of the grouping dictionary, in key order, with the title and the latest time |
| Store.GroupByChat | backend/app/services/vector_store.py:60-62 | the dictionary's keys, in insertion order, are the first-seen chat ids, and each maps to exactly that chat's records in store order |
| Store.LatestIndex | backend/app/services/vector_store.py:66 | the position of a record whose time is not exceeded by any other, with every earlier record strictly older (`max` keeps the first maximum) |
| Store.LatestRecord | backend/app/services/vector_store.py:66 | `max(records, key=created_at)`: a member of the records, at least as late as every record, and the first such |
| Store.VectorStore.AddFile | backend/app/services/vector_store.py:76-82 | returns the file id; the file map gains exactly that (chat, id) entry; exactly one `system` message `File:<name>` of that chat is appended; reading the file back gives the bytes |
| Store.VectorStore.GetFile | backend/app/services/vector_store.py:84-85 | finds bytes exactly when the chat has a file map holding that id, and then they are the stored bytes; it reads and never changes state |
| Store.Lookup | backend/app/services/vector_store.py:85 | `files.get(chat, {}).get(id)`: present exactly when both levels hold the keys, and then the stored bytes |
| Store.LookupPutFile | backend/app/services/vector_store.py:78-79 | after storing, the stored (chat, id) gives the new bytes and every other (chat, id) lookup is as before |
| Store.VectorStore.GetMessages | backend/app/services/vector_store.py:87-90 | exactly the chat's records with their multiplicities, in non-decreasing creation time |
| Store.HistoryExact | backend/app/services/vector_store.py:88-89 | the history is a permutation of the chat's records, and a record is in it exactly when it belongs to the chat |
| Store.HistorySorted | backend/app/services/vector_store.py:89 | the history is ordered by creation time |
| Store.HistoryStable | backend/app/services/vector_store.py:89 | records with equal creation time keep their store order |
| Store.HistoryInInsertionOrder | backend/app/services/vector_store.py:87-90 | when times never decrease along the store, the history is the chat's records in store order |
| Store.ChatRecordsInTimeOrder | backend/app/services/vector_store.py:88 | the chat's records of a time-ordered store are time-ordered |
| Store.NoChatRecords | backend/app/services/vector_store.py:88 | a chat without records has an empty record list |
| Store.ChatRecordsSnoc | backend/app/services/vector_store.py:45 | appending one record extends that record's chat only, and adds its chat to the first-seen ids only if it is new |
| Store.ChatRecordsMembers | backend/app/services/vector_store.py:88 | a record is among the chat's records exactly when it is in the store with that chat id |
| Store.FirstSeenOccurs | backend/app/services/vector_store.py:60-62 | an id is a key of the grouping exactly when some record carries it, and then its group is non-empty |
| Store.FirstSeenDistinct | backend/app/services/vector_store.py:60-62 | the grouping lists each chat once |
| Store.FirstSeenOrder | backend/app/services/vector_store.py:60-65 | a chat listed earlier has a record before every record of a chat listed later |
| Store.SummariesSpec | backend/app/services/vector_store.py:64-74 | one summary per distinct chat, in first-seen order, titled `Chat ` and the id's first six characters, whose time is the latest creation time among that chat's records and is reached by one of them |
| Store.SummariesEmpty | backend/app/services/vector_store.py:59-74 | there are no summaries exactly when the store is empty |
| Store.ScoreChatFacts | backend/app/services/vector_store.py:51-55 | the collected pairs list the chat's records in store order, each with its own score |
| Store.RecordsWithScore | backend/app/services/vector_store.py:57 | taking the records of the pairs with one score is the same as selecting the records with that score |
| Store.RankedFacts | backend/app/services/vector_store.py:56 | the sorted pairs are the collected pairs, as many, with their scores, in non-increasing score order |
| Store.CandidatesMembers | backend/app/services/vector_store.py:51-57 | before slicing, the result holds every record of the chat and nothing else, one entry per record |
| Store.CandidatesStable | backend/app/services/vector_store.py:56 | records with equal scores keep their store order |
| Store.CandidatesRanked | backend/app/services/vector_store.py:56 | scores never increase along the sorted records |
| Store.SimilarIsPrefix | backend/app/services/vector_store.py:57 | the result is the slice `[:limit]` of the ranked records; for a non-negative limit it has `min(limit, chat size)` records, all of the queried chat |
| Store.SimilarRanked | backend/app/services/vector_store.py:56-57 | the result is ordered by non-increasing score |
| Store.SimilarEmptyChat | backend/app/services/vector_store.py:51-57 | a chat without records has no similar messages |
| Store.SimilarTop | backend/app/services/vector_store.py:56-57 | with a positive limit and a non-empty chat, the first result scores at least as high as every record of that chat |
| Store.ChatIsolation | backend/app/services/vector_store.py:52-53 | a record of another chat changes neither the search result nor the history of this chat |
| Store.SimilarFirstRecord | backend/app/services/vector_store.py:48-57 | the first record of a chat is the whole search result for that chat |
| Chat.OrElse | backend/app/services/chat_manager.py:112-114 | Python's `text or placeholder` on strings |
| Chat.Bullets | backend/app/services/chat_manager.py:105 | the generator `f"- {record.content}"` over the retrieved records |
| Chat.ContextSnippets | backend/app/services/chat_manager.py:105 | `"\n".join` of those bullets |
| Chat.HasFiles | backend/app/services/chat_manager.py:119 | the truth value of `payload.file_ids`: present and non-empty |
| Chat.FilesSection | backend/app/services/chat_manager.py:120 | `f"Files referenced: {', '.join(file_ids)}"` |
| Chat.PromptSections | backend/app/services/chat_manager.py:109-120 | the `prompt_sections` list: the seven fixed sections, then the files section when `HasFiles` |
| Chat.ComposePrompt | backend/app/services/chat_manager.py:122 | `"\n\n".join(prompt_sections)` |
| Chat.FilesLine | backend/app/services/chat_manager.py:119-122 | what the files section adds to the joined prompt: a blank line and the section, or nothing |
| Chat.AugmentedPrompt | backend/app/services/chat_manager.py:98-122 | the prompt composed from the search over the store after the user message, and from the insights of the message |
| Chat.ToChatMessage | backend/app/services/chat_manager.py:84-89 | the `ChatMessage` built from one record |
| Chat.ChatMessagesOf | backend/app/services/chat_manager.py:83-91 | the list comprehension over the records, one message per record, in order |
| Chat.FileMessages | backend/app/services/chat_manager.py:61-64 | the `system` records `File:<name>` the stored files append, in input order |
| Chat.PutFiles | backend/app/services/chat_manager.py:61-64 | the file map after storing the files one after the other |
| Chat.ChatManager.constructor | backend/app/services/chat_manager.py:23-31 | the manager keeps the model, the store and the insight client it is given |
| Chat.ChatManager.GetChats | backend/app/services/chat_manager.py:43-57 | for an empty store, the single `demo` summary titled `Demo conversation` at the given time; otherwise exactly the store's summaries, in order |
| Chat.ChatManager.StoreFiles | backend/app/services/chat_manager.py:59-65 | one id per file, in input order; the store gains one `system` message per file in that order, and the files of all calls, stored one after the other |
| Chat.NewChatRecords | backend/app/services/chat_manager.py:72-78 | in a new chat, its records are the user message after augmentation, and the user message then the reply after a successful exchange |
| Chat.PutFilesLookup | backend/app/services/chat_manager.py:61-64 | every stored file can be read back unless a later file of the same call reuses its id |
| Chat.PutFilesOtherChats | backend/app/services/chat_manager.py:61-64 | storing files in one chat leaves every other chat's files as they were |
| Chat.ChatManager.AugmentPrompt | backend/app/services/chat_manager.py:93-122 | the store gains exactly the user message, files unchanged, and the prompt is composed from the search over the store that already holds it |
| Chat.PromptLayout | backend/app/services/chat_manager.py:109-122 | the prompt written out: the seven sections in fixed order separated by a blank line, with the placeholders for empty context or insights, and the `Files referenced` line exactly when file ids are given and non-empty |
| Text.JoinSections | backend/app/services/chat_manager.py:119-122 | joining the seven sections and at most one more writes each separator once between neighbours |
| Chat.ContextEmpty | backend/app/services/chat_manager.py:105 | the context text is empty exactly when nothing was retrieved |
| Chat.ContextLines | backend/app/services/chat_manager.py:105 | each retrieved record adds a line `- content`, after a newline, behind the previous ones, in retrieval order |
| Chat.AugmentFindsOwnMessage | backend/app/services/chat_manager.py:98-104 | while the chat has fewer than five records before the new one, the new user message is among the retrieved records |
| Chat.AugmentSeesOwnMessage | backend/app/services/chat_manager.py:98-105 | since the user message is recorded first, the search finds something, the first hit scores at least as high as the message itself, and the context is never the placeholder |
| Chat.FirstTurnPrompt | backend/app/services/chat_manager.py:98-122 | on the first turn of a chat the context is exactly the new message as a bullet |
| Chat.ChatManager.GenerateResponse | backend/app/services/chat_manager.py:67-79 | on success the store gains the user message, then the assistant reply, and the response carries the reply record's id, content and time; on failure the error propagates and only the user message was added |
| Chat.ExchangeHistory | backend/app/services/chat_manager.py:67-91 | in a new chat with a clock that does not go back, the history after a successful exchange is [user, reply], and after a failed one [user] |
| Chat.ChatManager.GetChatMessages | backend/app/services/chat_manager.py:81-91 | message i is the rendering (id, author, content, time) of record i of `get_messages`, and there are as many messages as records; hence one message per record of the chat, in creation-time order, equal times in store order |
| Chat.ChatMessagesOfMembers | backend/app/services/chat_manager.py:83-91 | the rendered messages are exactly the renderings of the records |
| OpenAiKey.IsSpace | backend/app/services/openai_client.py:66 | the characters Python's `str.strip()` removes |
| OpenAiKey.IsLineBreak | backend/app/services/openai_client.py:65 | the line boundaries of `str.splitlines()` |
| OpenAiKey.FindFirst | backend/app/services/openai_client.py:70-74 | the position of the first character satisfying the test, or the length when there is none, as `partition` and `split(..., 1)` find it |
| OpenAiKey.Strip | backend/app/services/openai_client.py:66-74 | `s.strip(chars)`: the maximal leading and trailing runs removed |
| OpenAiKey.SplitLines | backend/app/services/openai_client.py:65 | `contents.splitlines()`, with `\r\n` ending one line and no empty last line |
| OpenAiKey.CleanValue | backend/app/services/openai_client.py:74 | `value.split("#", 1)[0].strip().strip('"').strip("'")`, in that order |
| OpenAiKey.ReadLine | backend/app/services/openai_client.py:66 | one raw line is read after `raw_line.strip()` |
| OpenAiKey.ReadStripped | backend/app/services/openai_client.py:67-70 | empty lines and lines starting with `#` are skipped; any other is split at its first `=` |
| OpenAiKey.ReadAssignment | backend/app/services/openai_client.py:70-74 | the key before the `=` is compared after stripping; a match carries the cleaned value after the `=`, or of the empty value |
| OpenAiKey.ScanFile | backend/app/services/openai_client.py:65-76 | the loop over one file's lines: its first match decides; no match passes on to the next file |
| OpenAiKey.ResolveApiKey | backend/app/services/openai_client.py:51-53 | a non-empty environment value is returned without reading any file; otherwise the files decide; a key found is never empty |
| OpenAiKey.ScanFiles | backend/app/services/openai_client.py:55-77 | the key of the first file with a matching line, none when no file has one; a key found is never empty |
| OpenAiKey.FirstDecidingFileWins | backend/app/services/openai_client.py:55-75 | files without a matching line are passed over, and the first file with one decides, whatever later files say |
| OpenAiKey.FirstDecided | backend/app/services/openai_client.py:55-77 | a key found is the decision of some file |
| OpenAiKey.ScanLines | backend/app/services/openai_client.py:65-75 | the cleaned value of the first matching line, or none when it is empty; a key found is never empty |
| OpenAiKey.FirstMatch | backend/app/services/openai_client.py:65-75 | a file decides exactly when some line matches, and a key it decides on is non-empty |
| OpenAiKey.FirstMatchWins | backend/app/services/openai_client.py:65-75 | skipped lines before the first matching line and everything after it have no influence: its cleaned value, or none when empty, is the file's decision |
| OpenAiKey.FirstMatchAt | backend/app/services/openai_client.py:65-75 | skip verdicts before the first match are passed over and the match decides |
| OpenAiKey.FirstDecidedAt | backend/app/services/openai_client.py:55-75 | undecided files before the first decided one are passed over and that one decides |
| OpenAiKey.BlankLineSkipped | backend/app/services/openai_client.py:66-68 | a line of blanks only is skipped |
| OpenAiKey.CommentLineSkipped | backend/app/services/openai_client.py:66-68 | a line whose first non-blank character is `#` is skipped |
| OpenAiKey.MatchesExactlyOnKey | backend/app/services/openai_client.py:66-72 | a line matches exactly when the stripped text before its first `=`, of the stripped line, is `OPENAI_API_KEY` |
| OpenAiKey.AssignmentRead | backend/app/services/openai_client.py:66-74 | a line `name = value` with blanks around the name matches exactly when the name is the key name, and then its value is the cleaned value; stated for values that are empty or do not end in a blank |
| OpenAiKey.KeyLineRead | backend/app/services/openai_client.py:66-74 | a key line with any blank padding around the name yields the cleaned value; stated for values that are empty or do not end in a blank |
| OpenAiKey.SplitAtFirstEquals | backend/app/services/openai_client.py:70 | `partition("=")` of a name without `=` splits just after the name |
| OpenAiKey.NoEqualsLine | backend/app/services/openai_client.py:66-75 | a line without `=` matches exactly when the stripped line is the key name, and then with an empty value |
| OpenAiKey.WholeLineKey | backend/app/services/openai_client.py:70-74 | without `=` the key is the whole line and the cleaned value is empty |
| OpenAiKey.CleanValueShape | backend/app/services/openai_client.py:74 | the cleaned value is a slice of the value before its first `#`, containing no `#`, and neither ending with a single quote |
| OpenAiKey.CleanQuoted | backend/app/services/openai_client.py:74 | a plain key in double quotes cleans to the key |
| OpenAiKey.CleanEmpty | backend/app/services/openai_client.py:74-75 | an empty value cleans to the empty value |
| OpenAiKey.WrittenKeyIsRead | backend/app/services/openai_client.py:51-77 | with no environment value, a `.env` text holding only `OPENAI_API_KEY="<key>"` resolves to exactly that key |
| OpenAiKey.WrittenFileDecides | backend/app/services/openai_client.py:65-75 | that file decides on the key |
| OpenAiKey.WrittenLineRead | backend/app/services/openai_client.py:66-74 | that line matches with the key as its value |
| OpenAiKey.SingleLine | backend/app/services/openai_client.py:65 | a text without line boundaries, plus a newline, is one line for `splitlines` |
| OpenAiKey.StripSlice | backend/app/services/openai_client.py:66 | `strip` removes exactly the maximal leading and trailing runs, and what remains starts and ends with kept characters |
| OpenAiKey.StripAt | backend/app/services/openai_client.py:66 | conversely, a slice framed by maximal runs is the stripped text |
| OpenAiKey.StripAll | backend/app/services/openai_client.py:66-67 | a text made only of stripped characters strips to empty |
| OpenAiKey.StripStripped | backend/app/services/openai_client.py:66-71 | stripping twice gives the same as stripping once |
| OpenAiKey.Generate | backend/app/services/openai_client.py:30-42 | an API error becomes the fetch error; a missing or empty text becomes the fixed apology; any other text is returned unchanged; a reply is never empty |
| Uuid.HexDigit | frontend/lib/id.ts:15 | the lowercase digit `toString(16)` writes for a value below 16 |
| Uuid.ToHex | frontend/lib/id.ts:15 | `value.toString(16)`: the digits most significant first, no leading zero |
| Uuid.PadStart | frontend/lib/id.ts:15 | `padStart(2, "0")`: zeros in front up to the width |
| Uuid.ByteHex | frontend/lib/id.ts:15 | one byte rendered: `value.toString(16).padStart(2, "0")` |
| Uuid.HexStrings | frontend/lib/id.ts:15 | `Array.from(fallback, ...)`: one rendering per byte, in byte order |
| Uuid.Segment | frontend/lib/id.ts:16 | `hex.slice(start, end).join("")` |
| Uuid.Format | frontend/lib/id.ts:18 | the five segments 0-4, 4-6, 6-8, 8-10, 10-16 joined by `-` |
| Uuid.Parse | frontend/lib/id.ts:15-18 | reads each byte back from its two digits at its offset: the inverse of the rendering |
| Uuid.FallbackId | frontend/lib/id.ts:6-18 | filling the buffer from the draws, overwriting bytes 6 and 8 in place and rendering yields the rendering of the draws with version and variant bits |
| Uuid.WithVersion | frontend/lib/id.ts:12-13 | byte 6 is 4 in the high nibble over its low nibble, byte 8 is `10` in the top bits over its low six bits, every other byte unchanged |
| Uuid.VersionBits | frontend/lib/id.ts:12 | `(b & 0x0f) \| 0x40` is 64 plus the low nibble |
| Uuid.VariantBits | frontend/lib/id.ts:13 | `(b & 0x3f) \| 0x80` is 128 plus the low six bits |
| Uuid.ByteHexDigits | frontend/lib/id.ts:15 | each byte renders as exactly two lowercase hex digits, zero-padded, high nibble first |
| Uuid.FormatShape | frontend/lib/id.ts:16-18 | 36 characters, hyphens at 8, 13, 18 and 23 and nowhere else, hex digits everywhere else |
| Uuid.FormatAt | frontend/lib/id.ts:15-18 | the high digit of byte i stands at its offset and the low digit right after it, the offsets following byte order with a hyphen after bytes 3, 5, 7 and 9 |
| Uuid.ParseFormat | frontend/lib/id.ts:15-18 | reading the rendering back gives the bytes: no byte is lost or changed |
| Uuid.FallbackIsVersion4 | frontend/lib/id.ts:11-18 | every fallback identifier has the form `xxxxxxxx-xxxx-4xxx-yxxx-xxxxxxxxxxxx` with `y` in `89ab` |
| Uuid.FallbackKeepsDraws | frontend/lib/id.ts:12-18 | every draw but bytes 6 and 8 appears unchanged in the identifier; bytes 6 and 8 keep their low nibble and their low six bits |
| Uuid.HexValueOfDigit | frontend/lib/id.ts:15 | a hex digit reads back as its value |
| Sorting.Sort | backend/app/services/vector_store.py:56 | Python's stable `list.sort(key=..., reverse=...)`, modelled as an insertion sort that places each element before the first one it may precede, keeping equal keys in input order |
| Sorting.SortPermutes | backend/app/services/vector_store.py:56 | `list.sort` keeps every element with its multiplicity |
| Sorting.SortSorted | backend/app/services/vector_store.py:56 | `list.sort` orders by the key, descending when reversed |
| Sorting.SortStable | backend/app/services/vector_store.py:56 | `list.sort` keeps the order of elements with equal keys, also when reversed |
| Sorting.SortOfSorted | backend/app/services/vector_store.py:89 | sorting an already ordered list leaves it as it is |
| Text.Join | backend/app/services/chat_manager.py:122 | `sep.join(parts)`: the parts with the separator between neighbours |
| Text.JoinCons | backend/app/services/chat_manager.py:122 | joining with one more leading part puts it and the separator in front |
| Text.JoinSeven | backend/app/services/chat_manager.py:109-122 | seven parts joined carry the separator exactly once between neighbours |
| Text.JoinSnoc | backend/app/services/chat_manager.py:120-122 | joining one more part appends the separator and that part |
| Text.JoinEmpty | backend/app/services/chat_manager.py:105 | with a non-empty separator a join is empty exactly when there is no part or one empty part |

## Left out

- The embedding encoder (a NumPy generator seeded from Python's string hash, normal samples, L2 normalisation) and the floating-point dot product are not modelled. The score is the `similarity` parameter, a real-valued function of (query, content). The `embedding` field of a record and `embedding_dimensions` are left out with it.
- `secrets.token_hex`, `datetime.utcnow`, `Math.random` and `crypto.randomUUID` are not modelled. Ids, times and the 16 random bytes are inputs, and the `randomUUID` branch (`id.ts:2-4`) is not modelled. Nothing is claimed about the uniqueness of ids, since the code does not enforce it. Times are integers.
- OpenAiKey.ResolveApiKey: the walk over the parent directories, the existence checks, the file reads with their skipped `OSError` and the `lru_cache` are not modelled. The key is a function of the environment value and the texts of the `.env` files that could be read, in walk order.
- OpenAiKey.Generate: the network request is not modelled. Its outcome is the `ApiOutcome` parameter. The client set-up with `httpx` and the error raised for a missing key in `OpenAIClient.__init__` (`openai_client.py:14-28`) are also left out.
- Chat.ChatManager.GenerateResponse: the language model is the `llm` parameter, a function from prompt to reply or error. The model does not apply `Generate`'s fallback inside it.
- The MCP client is the `insights` parameter. Its canned texts are not part of this model. `get_projects` returns a constant list and is not modelled.
- Chat.ChatManager.StoreFiles: reading an upload is its `content`. A missing `filename` (None in the framework) is not modelled.
- The FastAPI routes, schemas, application start-up, logging, the dependency singleton, the React front end and the stale build copies are not part of this model.
- Concurrency is not modelled. Every operation runs atomically and the awaits are sequential steps.
- Python's `list.sort` is a library call. It is modelled by the function `Sorting.Sort` (a stable insertion sort), not by an in-place array algorithm.
- Python `int` and `datetime` ordering are modelled by unbounded integers. JavaScript numbers in `id.ts` are modelled by `bv8` bytes and naturals.
