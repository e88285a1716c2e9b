/** The chat orchestrator (backend/app/services/chat_manager.py): it stores
    uploaded files, augments a user message with retrieved context and tool
    insights, asks a language model for a reply and records the exchange.

    The language model and the tool-insight client are collaborators the
    model cannot see: `llm` maps a prompt to a reply or to an error (the
    exception the client raises), `insights` maps the user message to the
    insight text. Every operation runs atomically; the awaits of the source
    are sequential steps here. */
module Chat {
  import opened Wrappers
  import opened Text
  import opened Store

  /** The body of a completion request: the message and the optional file ids. */
  datatype CompletionRequest = CompletionRequest(message: string, fileIds: Option<seq<string>>)

  datatype CompletionResponse = CompletionResponse(id: string, content: string, createdAt: int)

  /** A record of the history, as the HTTP layer sees it. */
  datatype ChatMessage = ChatMessage(id: string, author: string, content: string, createdAt: int)

  /** An uploaded file: its name and the bytes reading it yields. */
  datatype Upload = Upload(filename: string, content: Bytes)

  /** What the token source and the clock produce for one stored file. */
  datatype FileStamp = FileStamp(fileId: string, message: Stamp)

  const Framing := "You are a helpful assistant running on OpenAI's Responses API."
  const NoContext := "(no prior context)"
  const NoInsights := "(no insights)"
  const RetrievalLimit := 5

  function OrElse(s: string, fallback: string): string
  {
    if s == "" then fallback else s
  }

  /** One `"- " + content` line per retrieved record, in retrieval order. */
  function Bullets(rs: seq<MessageRecord>): seq<string>
  {
    seq(|rs|, i requires 0 <= i < |rs| => "- " + rs[i].content)
  }

  function ContextSnippets(rs: seq<MessageRecord>): string
  {
    Join("\n", Bullets(rs))
  }

  /** `True` for a file-id list that Python treats as true (present and non-empty). */
  predicate HasFiles(fileIds: Option<seq<string>>)
  {
    fileIds.Some? && |fileIds.value| > 0
  }

  function PromptSections(context: string, insights: string, request: CompletionRequest): seq<string>
  {
    [Framing, "Conversation context:", OrElse(context, NoContext),
     "Relevant MCP tool insights:", OrElse(insights, NoInsights),
     "User message:", request.message]
    + (if HasFiles(request.fileIds) then [FilesSection(request.fileIds.value)] else [])
  }

  /** The trailing section naming the referenced files. */
  function FilesSection(fileIds: seq<string>): string
  {
    "Files referenced: " + Join(", ", fileIds)
  }

  function ComposePrompt(context: string, insights: string, request: CompletionRequest): string
  {
    Join("\n\n", PromptSections(context, insights, request))
  }

  /** The prompt `_augment_prompt` returns when `ms` is the store after the
      user message was recorded. */
  function AugmentedPrompt(ms: seq<MessageRecord>, chatId: string, similarity: (string, string) -> real,
                           insights: string -> string, request: CompletionRequest): string
  {
    ComposePrompt(ContextSnippets(Similar(ms, chatId, similarity, request.message, RetrievalLimit)),
                  insights(request.message), request)
  }

  function ToChatMessage(r: MessageRecord): ChatMessage
  {
    ChatMessage(r.messageId, r.author, r.content, r.createdAt)
  }

  function FileMessages(chatId: string, files: seq<Upload>, stamps: seq<FileStamp>): seq<MessageRecord>
    requires |files| == |stamps|
  {
    seq(|files|, i requires 0 <= i < |files| =>
      MessageRecord(stamps[i].message.id, chatId, "system", "File:" + files[i].filename, stamps[i].message.at))
  }

  /** The file map after storing `files`, one after the other. */
  function PutFiles(fs: map<string, map<string, Bytes>>, chatId: string, files: seq<Upload>,
                    stamps: seq<FileStamp>): map<string, map<string, Bytes>>
    requires |files| == |stamps|
  {
    if files == [] then fs
    else PutFile(PutFiles(fs, chatId, files[..|files| - 1], stamps[..|stamps| - 1]),
                 chatId, stamps[|stamps| - 1].fileId, files[|files| - 1].content)
  }

  function ChatMessagesOf(rs: seq<MessageRecord>): seq<ChatMessage>
  {
    seq(|rs|, i requires 0 <= i < |rs| => ToChatMessage(rs[i]))
  }

  lemma ChatMessagesOfMembers(rs: seq<MessageRecord>)
    ensures forall m :: m in ChatMessagesOf(rs) <==> exists r :: r in rs && m == ToChatMessage(r)
  {
    var ms := ChatMessagesOf(rs);
    forall m ensures m in ms <==> exists r :: r in rs && m == ToChatMessage(r) {
      if m in ms {
        var i :| 0 <= i < |ms| && ms[i] == m;
        assert rs[i] in rs;
      }
      if exists r :: r in rs && m == ToChatMessage(r) {
        var r :| r in rs && m == ToChatMessage(r);
        var i :| 0 <= i < |rs| && rs[i] == r;
        assert ms[i] == m;
      }
    }
  }

  class ChatManager {
    const llm: string -> Result<string, string>
    const store: VectorStore
    const insights: string -> string

    constructor (llm: string -> Result<string, string>, store: VectorStore, insights: string -> string)
      ensures this.llm == llm && this.store == store && this.insights == insights
    {
      this.llm := llm;
      this.store := store;
      this.insights := insights;
    }

    /** The store's chat summaries, or one demo summary stamped `now` when
        the store holds no message. */
    method GetChats(now: int) returns (chats: seq<ChatSummary>)
      ensures store.messages == [] ==> chats == [ChatSummary("demo", "Demo conversation", now)]
      ensures store.messages != [] ==> chats == Summaries(store.messages)
    {
      var chatRecords := store.ListChats();
      SummariesEmpty(store.messages);
      if |chatRecords| == 0 {
        chats := [ChatSummary("demo", "Demo conversation", now)];
      } else {
        chats := seq(|chatRecords|, i requires 0 <= i < |chatRecords| =>
          ChatSummary(chatRecords[i].id, chatRecords[i].title, chatRecords[i].updatedAt));
      }
    }

    /** Stores each file in input order; returns their ids in that order. */
    method StoreFiles(chatId: string, files: seq<Upload>, stamps: seq<FileStamp>)
      returns (fileIds: seq<string>)
      requires |stamps| == |files|
      modifies store
      ensures |fileIds| == |files|
      ensures forall i :: 0 <= i < |files| ==> fileIds[i] == stamps[i].fileId
      ensures store.messages == old(store.messages) + FileMessages(chatId, files, stamps)
      ensures store.files == PutFiles(old(store.files), chatId, files, stamps)
    {
      fileIds := [];
      for i := 0 to |files|
        invariant |fileIds| == i
        invariant forall k :: 0 <= k < i ==> fileIds[k] == stamps[k].fileId
        invariant store.messages == old(store.messages) + FileMessages(chatId, files[..i], stamps[..i])
        invariant store.files == PutFiles(old(store.files), chatId, files[..i], stamps[..i])
      {
        var content := files[i].content;
        var fileId := store.AddFile(chatId, files[i].filename, content, stamps[i].fileId, stamps[i].message);
        fileIds := fileIds + [fileId];
        assert files[..i + 1][..i] == files[..i] && stamps[..i + 1][..i] == stamps[..i];
        assert FileMessages(chatId, files[..i + 1], stamps[..i + 1])
            == FileMessages(chatId, files[..i], stamps[..i]) + [store.messages[|store.messages| - 1]];
      }
      assert files[..|files|] == files && stamps[..|stamps|] == stamps;
    }

    /** Records the user message, then searches (so the search sees it),
        and composes the prompt. */
    method AugmentPrompt(chatId: string, payload: CompletionRequest, stamp: Stamp) returns (prompt: string)
      modifies store
      ensures store.messages == old(store.messages) + [MessageRecord(stamp.id, chatId, "user", payload.message, stamp.at)]
      ensures store.files == old(store.files)
      ensures prompt == AugmentedPrompt(store.messages, chatId, store.similarity, insights, payload)
    {
      var _ := store.AddMessage(chatId, "user", payload.message, stamp);
      var similarMessages := store.SimilarMessages(chatId, payload.message, RetrievalLimit);
      var contextSnippets := ContextSnippets(similarMessages);
      var toolSummaries := insights(payload.message);
      var promptSections := [Framing, "Conversation context:", OrElse(contextSnippets, NoContext),
                             "Relevant MCP tool insights:", OrElse(toolSummaries, NoInsights),
                             "User message:", payload.message];
      if HasFiles(payload.fileIds) {
        promptSections := promptSections + ["Files referenced: " + Join(", ", payload.fileIds.value)];
      }
      assert promptSections == PromptSections(contextSnippets, toolSummaries, payload);
      prompt := Join("\n\n", promptSections);
    }

    /** Augments, generates, and records the reply only when generation
        succeeds; a failure is passed to the caller with the user message
        left in the store. */
    method GenerateResponse(chatId: string, payload: CompletionRequest, userStamp: Stamp, replyStamp: Stamp)
      returns (response: Result<CompletionResponse, string>)
      modifies store
      ensures store.files == old(store.files)
      ensures var user := MessageRecord(userStamp.id, chatId, "user", payload.message, userStamp.at);
              var prompt := AugmentedPrompt(old(store.messages) + [user], chatId, store.similarity, insights, payload);
              match llm(prompt)
              case Failure(e) =>
                response == Failure(e) && store.messages == old(store.messages) + [user]
              case Success(reply) =>
                response == Success(CompletionResponse(replyStamp.id, reply, replyStamp.at))
                && store.messages == old(store.messages) + [user,
                     MessageRecord(replyStamp.id, chatId, "assistant", reply, replyStamp.at)]
    {
      var enrichedPrompt := AugmentPrompt(chatId, payload, userStamp);
      var modelResponse := llm(enrichedPrompt);
      if modelResponse.Failure? {
        return Failure(modelResponse.error);
      }
      var record := store.AddMessage(chatId, "assistant", modelResponse.value, replyStamp);
      response := Success(CompletionResponse(record.messageId, modelResponse.value, record.createdAt));
    }

    /** The chat's history in creation-time order, every record of the chat
        once, with its id, author, content and time. */
    function GetChatMessages(chatId: string): (messages: seq<ChatMessage>)
      reads store
      ensures |messages| == |History(store.messages, chatId)|
      ensures forall i :: 0 <= i < |messages| ==> messages[i] == ToChatMessage(History(store.messages, chatId)[i])
      ensures |messages| == |ChatRecords(store.messages, chatId)|
      ensures forall i, j :: 0 <= i < j < |messages| ==> messages[i].createdAt <= messages[j].createdAt
      ensures forall m :: m in messages <==> exists r :: r in store.messages && r.chatId == chatId && m == ToChatMessage(r)
    {
      var records := store.GetMessages(chatId);
      HistoryExact(store.messages, chatId);
      HistorySorted(store.messages, chatId);
      Sorting.SortPermutes(ChatRecords(store.messages, chatId), CreatedAt, false);
      ChatMessagesOfMembers(records);
      ChatMessagesOf(records)
    }
  }

  // ---------------------------------------------------------------------
  // Lemmas

  /** The text the trailing section adds to the prompt: nothing unless the
      request carries at least one file id. */
  function FilesLine(fileIds: Option<seq<string>>): string
  {
    if HasFiles(fileIds) then "\n\n" + FilesSection(fileIds.value) else ""
  }

  /** The prompt, written out: framing sentence, context heading, context or
      its placeholder, insight heading, insights or their placeholder, user
      heading, the message, each separated by a blank line, and the
      "Files referenced" line exactly when file ids were given. */
  lemma PromptLayout(context: string, insights: string, request: CompletionRequest)
    ensures ComposePrompt(context, insights, request)
         == Framing + "\n\n" + "Conversation context:" + "\n\n" + OrElse(context, NoContext)
            + "\n\n" + "Relevant MCP tool insights:" + "\n\n" + OrElse(insights, NoInsights)
            + "\n\n" + "User message:" + "\n\n" + request.message + FilesLine(request.fileIds)
  {
    var more := if HasFiles(request.fileIds) then [FilesSection(request.fileIds.value)] else [];
    JoinSections("\n\n", Framing, "Conversation context:", OrElse(context, NoContext),
                 "Relevant MCP tool insights:", OrElse(insights, NoInsights), "User message:", request.message,
                 more);
  }

  /** The context is empty exactly when nothing was retrieved. */
  lemma ContextEmpty(rs: seq<MessageRecord>)
    ensures ContextSnippets(rs) == "" <==> rs == []
  {
    JoinEmpty("\n", Bullets(rs));
    if |rs| == 1 {
      assert Bullets(rs)[0] == "- " + rs[0].content;
    }
  }

  /** Each retrieved record adds a line `- content` after the earlier ones. */
  lemma ContextLines(rs: seq<MessageRecord>, r: MessageRecord)
    ensures ContextSnippets([r]) == "- " + r.content
    ensures rs != [] ==> ContextSnippets(rs + [r]) == ContextSnippets(rs) + "\n" + "- " + r.content
  {
    assert Bullets([r]) == ["- " + r.content];
    if rs != [] {
      assert Bullets(rs + [r]) == Bullets(rs) + ["- " + r.content];
      JoinSnoc("\n", Bullets(rs), "- " + r.content);
    }
  }

  /** Because the user message is recorded before the search, the search
      always finds something: the context is never the placeholder, and what
      comes first scores at least as high as the new message itself. */
  lemma AugmentSeesOwnMessage(ms: seq<MessageRecord>, user: MessageRecord,
                              similarity: (string, string) -> real, request: CompletionRequest)
    requires user.content == request.message
    ensures |Similar(ms + [user], user.chatId, similarity, request.message, RetrievalLimit)| > 0
    ensures similarity(request.message, Similar(ms + [user], user.chatId, similarity, request.message, RetrievalLimit)[0].content)
            >= similarity(request.message, request.message)
    ensures ContextSnippets(Similar(ms + [user], user.chatId, similarity, request.message, RetrievalLimit)) != ""
  {
    assert user in ms + [user];
    SimilarTop(ms + [user], user.chatId, similarity, request.message, RetrievalLimit);
    ContextEmpty(Similar(ms + [user], user.chatId, similarity, request.message, RetrievalLimit));
  }

  /** While the chat has fewer records than the retrieval limit, the search
      returns every one of them, so the new user message is among them. With
      more records it may not be: the ranking is stable, so earlier records
      of equal score come first. */
  lemma AugmentFindsOwnMessage(ms: seq<MessageRecord>, user: MessageRecord,
                               similarity: (string, string) -> real, query: string)
    requires |ChatRecords(ms, user.chatId)| < RetrievalLimit
    ensures user in Similar(ms + [user], user.chatId, similarity, query, RetrievalLimit)
  {
    var ms' := ms + [user];
    ChatRecordsSnoc(ms, user, user.chatId);
    CandidatesMembers(ms', user.chatId, similarity, query);
    SimilarIsPrefix(ms', user.chatId, similarity, query, RetrievalLimit);
    var c := Candidates(ms', user.chatId, similarity, query);
    assert PySlice(c, RetrievalLimit) == c;
    assert user in ms';
  }

  /** On the first turn of a chat the context is the new message itself. */
  lemma FirstTurnPrompt(ms: seq<MessageRecord>, user: MessageRecord,
                        similarity: (string, string) -> real, insights: string -> string,
                        request: CompletionRequest)
    requires forall r :: r in ms ==> r.chatId != user.chatId
    requires user.content == request.message
    ensures AugmentedPrompt(ms + [user], user.chatId, similarity, insights, request)
         == Framing + "\n\n" + "Conversation context:" + "\n\n" + ("- " + request.message)
            + "\n\n" + "Relevant MCP tool insights:" + "\n\n" + OrElse(insights(request.message), NoInsights)
            + "\n\n" + "User message:" + "\n\n" + request.message + FilesLine(request.fileIds)
  {
    SimilarFirstRecord(ms, user, similarity, request.message, RetrievalLimit);
    ContextLines([], user);
    assert OrElse("- " + request.message, NoContext) == "- " + request.message;
    PromptLayout("- " + request.message, insights(request.message), request);
  }

  /** After a successful exchange in a new chat whose clock does not go
      back, the history is the user message, then the reply; after a failed
      one it is the user message alone. */
  lemma ExchangeHistory(ms: seq<MessageRecord>, user: MessageRecord, reply: MessageRecord)
    requires forall r :: r in ms ==> r.chatId != user.chatId
    requires reply.chatId == user.chatId && user.createdAt <= reply.createdAt
    ensures History(ms + [user], user.chatId) == [user]
    ensures History(ms + [user, reply], user.chatId) == [user, reply]
  {
    var c := user.chatId;
    NewChatRecords(ms, user, reply);
    assert History(ms + [user], c) == [user] by {
      Sorting.SortOfSorted([user], CreatedAt, false);
    }
    assert History(ms + [user, reply], c) == [user, reply] by {
      assert Sorting.InOrder(CreatedAt, false, user, reply);
      Sorting.SortOfSorted([user, reply], CreatedAt, false);
    }
  }

  /** In a new chat, the records after the user message and after the reply. */
  lemma NewChatRecords(ms: seq<MessageRecord>, user: MessageRecord, reply: MessageRecord)
    requires forall r :: r in ms ==> r.chatId != user.chatId
    requires reply.chatId == user.chatId
    ensures ChatRecords(ms + [user], user.chatId) == [user]
    ensures ChatRecords(ms + [user, reply], user.chatId) == [user, reply]
  {
    var c := user.chatId;
    assert ChatRecords(ms + [user], c) == [user] by {
      NoChatRecords(ms, c);
      ChatRecordsSnoc(ms, user, c);
    }
    assert ms + [user, reply] == (ms + [user]) + [reply];
    ChatRecordsSnoc(ms + [user], reply, c);
  }

  /** Storing files makes each retrievable unless a later file of the same
      call reuses its id. */
  lemma {:induction false} PutFilesLookup(fs: map<string, map<string, Bytes>>, chatId: string,
                                          files: seq<Upload>, stamps: seq<FileStamp>, i: nat)
    requires |files| == |stamps| && i < |files|
    requires forall j :: i < j < |files| ==> stamps[j].fileId != stamps[i].fileId
    ensures Lookup(PutFiles(fs, chatId, files, stamps), chatId, stamps[i].fileId) == Some(files[i].content)
  {
    var n := |files| - 1;
    var before := PutFiles(fs, chatId, files[..n], stamps[..n]);
    LookupPutFile(before, chatId, stamps[n].fileId, files[n].content, chatId, stamps[i].fileId);
    if i < n {
      PutFilesLookup(fs, chatId, files[..n], stamps[..n], i);
    }
  }

  /** Storing files in one chat leaves the files of every other chat as they were. */
  lemma {:induction false} PutFilesOtherChats(fs: map<string, map<string, Bytes>>, chatId: string,
                                              files: seq<Upload>, stamps: seq<FileStamp>, c: string, f: string)
    requires |files| == |stamps| && c != chatId
    ensures Lookup(PutFiles(fs, chatId, files, stamps), c, f) == Lookup(fs, c, f)
  {
    if files != [] {
      var n := |files| - 1;
      PutFilesOtherChats(fs, chatId, files[..n], stamps[..n], c, f);
      LookupPutFile(PutFiles(fs, chatId, files[..n], stamps[..n]), chatId, stamps[n].fileId, files[n].content, c, f);
    }
  }
}
