/** The backend's in-memory message store (backend/app/services/vector_store.py):
    an append-only list of message records and, per chat, a map from file id
    to file bytes.

    The embedding of a record is computed once from its content by a
    deterministic encoder, so the dot product of the query's embedding with a
    record's embedding is a fixed function of (query text, record content).
    The model keeps that function, `similarity`, abstract. Message ids, file
    ids and timestamps come from a random token source and the clock; the
    model takes them as parameters (a `Stamp`). */
module Store {
  import opened Wrappers
  import Sorting

  type Bytes = seq<bv8>

  datatype MessageRecord = MessageRecord(
    messageId: string,
    chatId: string,
    author: string,
    content: string,
    createdAt: int)

  /** One entry of `list_chats`: the chat id, its title and the time of its latest message. */
  datatype ChatSummary = ChatSummary(id: string, title: string, updatedAt: int)

  /** What the token source and the clock produce for one new message. */
  datatype Stamp = Stamp(id: string, at: int)

  /** A `(score, record)` pair of the similarity search. */
  datatype Scored = Scored(score: real, record: MessageRecord)

  function ScoreOf(x: Scored): real { x.score }

  function CreatedAt(r: MessageRecord): real { r.createdAt as real }

  // ---------------------------------------------------------------------
  // Specification functions, on values

  /** The records of one chat, in store order. */
  function ChatRecords(ms: seq<MessageRecord>, chatId: string): seq<MessageRecord>
  {
    if ms == [] then []
    else ChatRecords(ms[..|ms| - 1], chatId)
         + (if ms[|ms| - 1].chatId == chatId then [ms[|ms| - 1]] else [])
  }

  /** The `(score, record)` pairs the search loop collects for one chat. */
  function ScoreChat(ms: seq<MessageRecord>, chatId: string,
                     similarity: (string, string) -> real, query: string): seq<Scored>
  {
    if ms == [] then []
    else ScoreChat(ms[..|ms| - 1], chatId, similarity, query)
         + (if ms[|ms| - 1].chatId == chatId
            then [Scored(similarity(query, ms[|ms| - 1].content), ms[|ms| - 1])] else [])
  }

  function Records(s: seq<Scored>): seq<MessageRecord>
  {
    seq(|s|, i requires 0 <= i < |s| => s[i].record)
  }

  /** Python's `s[:stop]`: a negative stop counts from the end. */
  function PySlice<T>(s: seq<T>, stop: int): (r: seq<T>)
  {
    if stop >= 0 then s[..if stop <= |s| then stop else |s|]
    else s[..if |s| + stop >= 0 then |s| + stop else 0]
  }

  /** The pairs of one chat sorted by descending score, stably. */
  function Ranked(ms: seq<MessageRecord>, chatId: string,
                  similarity: (string, string) -> real, query: string): seq<Scored>
  {
    Sorting.Sort(ScoreChat(ms, chatId, similarity, query), ScoreOf, true)
  }

  /** Every record of the chat, best first. */
  function Candidates(ms: seq<MessageRecord>, chatId: string,
                      similarity: (string, string) -> real, query: string): seq<MessageRecord>
  {
    Records(Ranked(ms, chatId, similarity, query))
  }

  /** What `similar_messages` returns. */
  function Similar(ms: seq<MessageRecord>, chatId: string,
                   similarity: (string, string) -> real, query: string, limit: int): seq<MessageRecord>
  {
    Records(PySlice(Ranked(ms, chatId, similarity, query), limit))
  }

  /** The records among `rs` whose score against `query` is `k`, in order. */
  function WithScore(rs: seq<MessageRecord>, similarity: (string, string) -> real,
                     query: string, k: real): seq<MessageRecord>
  {
    if rs == [] then []
    else (if similarity(query, rs[0].content) == k then [rs[0]] else [])
         + WithScore(rs[1..], similarity, query, k)
  }

  /** What `get_messages` returns: the chat's records stably sorted by creation time. */
  function History(ms: seq<MessageRecord>, chatId: string): seq<MessageRecord>
  {
    Sorting.Sort(ChatRecords(ms, chatId), CreatedAt, false)
  }

  /** The distinct chat ids of `ms` in the order they first occur (the key
      order of the dictionary `list_chats` builds). */
  function FirstSeen(ms: seq<MessageRecord>): seq<string>
  {
    if ms == [] then []
    else
      var ids := FirstSeen(ms[..|ms| - 1]);
      if ms[|ms| - 1].chatId in ids then ids else ids + [ms[|ms| - 1].chatId]
  }

  /** The position of the first record with the latest creation time: the
      element `max(records, key=created_at)` picks, scanning left to right
      and replacing the best so far only by a strictly later one. */
  function LatestIndex(rs: seq<MessageRecord>): (k: nat)
    requires |rs| > 0
    ensures k < |rs|
    ensures forall j :: 0 <= j < |rs| ==> rs[j].createdAt <= rs[k].createdAt
    ensures forall j :: 0 <= j < k ==> rs[j].createdAt < rs[k].createdAt
  {
    if |rs| == 1 then 0
    else
      var k := LatestIndex(rs[..|rs| - 1]);
      if rs[|rs| - 1].createdAt > rs[k].createdAt then |rs| - 1 else k
  }

  /** Python's `max(records, key=created_at)`: the first record with the
      latest creation time. */
  function LatestRecord(rs: seq<MessageRecord>): (r: MessageRecord)
    requires |rs| > 0
    ensures r in rs
    ensures forall x :: x in rs ==> x.createdAt <= r.createdAt
    ensures exists i :: 0 <= i < |rs| && rs[i] == r && forall j :: 0 <= j < i ==> rs[j].createdAt < r.createdAt
  {
    var k := LatestIndex(rs);
    rs[k]
  }

  /** `f"Chat {chat_id[:6]}"`. */
  function Title(chatId: string): string
  {
    "Chat " + (if |chatId| <= 6 then chatId else chatId[..6])
  }

  function SummaryOf(chatId: string, records: seq<MessageRecord>): ChatSummary
    requires |records| > 0
  {
    ChatSummary(chatId, Title(chatId), LatestRecord(records).createdAt)
  }

  /** What `list_chats` returns. */
  function Summaries(ms: seq<MessageRecord>): seq<ChatSummary>
  {
    var ids := FirstSeen(ms);
    FirstSeenOccurs(ms);
    seq(|ids|, i requires 0 <= i < |ids| => SummaryOf(ids[i], ChatRecords(ms, ids[i])))
  }

  /** `files.get(chat_id, {}).get(file_id)`. */
  function Lookup(files: map<string, map<string, Bytes>>, chatId: string, fileId: string): (r: Option<Bytes>)
    ensures r.Some? <==> chatId in files && fileId in files[chatId]
    ensures r.Some? ==> r.value == files[chatId][fileId]
  {
    var chatFiles := if chatId in files then files[chatId] else map[];
    if fileId in chatFiles then Some(chatFiles[fileId]) else None
  }

  /** `files.setdefault(chat_id, {})[file_id] = content`. */
  function PutFile(files: map<string, map<string, Bytes>>, chatId: string, fileId: string,
                   content: Bytes): map<string, map<string, Bytes>>
  {
    files[chatId := (if chatId in files then files[chatId] else map[])[fileId := content]]
  }

  /** Storing a file makes it retrievable and leaves every other (chat, file id) lookup as it was. */
  lemma LookupPutFile(files: map<string, map<string, Bytes>>, chatId: string, fileId: string, content: Bytes,
                      c: string, f: string)
    ensures Lookup(PutFile(files, chatId, fileId, content), c, f)
         == if c == chatId && f == fileId then Some(content) else Lookup(files, c, f)
  {
  }

  /** The first loop of `list_chats`: the dictionary from chat id to that
      chat's records, built in one pass, with its keys in insertion order. */
  method GroupByChat(ms: seq<MessageRecord>) returns (order: seq<string>, byChat: map<string, seq<MessageRecord>>)
    ensures order == FirstSeen(ms)
    ensures forall c :: c in byChat <==> c in order
    ensures forall c :: c in byChat ==> byChat[c] == ChatRecords(ms, c)
  {
    order := [];
    byChat := map[];
    for i := 0 to |ms|
      invariant order == FirstSeen(ms[..i])
      invariant forall c :: c in byChat <==> c in order
      invariant forall c :: c in byChat ==> byChat[c] == ChatRecords(ms[..i], c)
    {
      var record := ms[i];
      assert ms[..i + 1] == ms[..i] + [record];
      forall c ensures ChatRecords(ms[..i + 1], c)
                       == ChatRecords(ms[..i], c) + (if record.chatId == c then [record] else []) {
        ChatRecordsSnoc(ms[..i], record, c);
      }
      ChatRecordsSnoc(ms[..i], record, record.chatId);
      if record.chatId !in byChat {
        FirstSeenOccurs(ms[..i]);
        order := order + [record.chatId];
        byChat := byChat[record.chatId := [record]];
      } else {
        byChat := byChat[record.chatId := byChat[record.chatId] + [record]];
      }
    }
    assert ms[..|ms|] == ms;
  }

  // ---------------------------------------------------------------------
  // The store

  class VectorStore {
    const similarity: (string, string) -> real
    var messages: seq<MessageRecord>
    var files: map<string, map<string, Bytes>>

    constructor (similarity: (string, string) -> real)
      ensures this.similarity == similarity
      ensures messages == [] && files == map[]
    {
      this.similarity := similarity;
      messages := [];
      files := map[];
    }

    /** Appends one record; nothing else changes. */
    method AddMessage(chatId: string, author: string, content: string, stamp: Stamp)
      returns (record: MessageRecord)
      modifies this
      ensures record == MessageRecord(stamp.id, chatId, author, content, stamp.at)
      ensures messages == old(messages) + [record]
      ensures files == old(files)
    {
      record := MessageRecord(stamp.id, chatId, author, content, stamp.at);
      messages := messages + [record];
    }

    /** Scores the chat's records against `content`, sorts them by
        descending score (stably) and keeps the first `limit`. */
    method SimilarMessages(chatId: string, content: string, limit: int)
      returns (result: seq<MessageRecord>)
      ensures result == Similar(messages, chatId, similarity, content, limit)
    {
      var scored: seq<Scored> := [];
      for i := 0 to |messages|
        invariant scored == ScoreChat(messages[..i], chatId, similarity, content)
      {
        var record := messages[i];
        assert messages[..i + 1][..i] == messages[..i];
        if record.chatId != chatId {
          continue;
        }
        var score := similarity(content, record.content);
        scored := scored + [Scored(score, record)];
      }
      assert messages[..|messages|] == messages;
      scored := Sorting.Sort(scored, ScoreOf, true);
      result := Records(PySlice(scored, limit));
    }

    /** Groups the records by chat in first-seen order and summarises each group. */
    method ListChats() returns (summaries: seq<ChatSummary>)
      ensures summaries == Summaries(messages)
    {
      var ms := messages;
      var order, byChat := GroupByChat(ms);
      FirstSeenOccurs(ms);
      summaries := [];
      for j := 0 to |order|
        invariant |summaries| == j
        invariant forall k :: 0 <= k < j ==> summaries[k] == SummaryOf(order[k], ChatRecords(ms, order[k]))
      {
        var chatId := order[j];
        var records := byChat[chatId];
        var lastMessage := LatestRecord(records);
        summaries := summaries + [ChatSummary(chatId, Title(chatId), lastMessage.createdAt)];
      }
    }

    /** Stores the blob and records a `system` message naming the file. */
    method AddFile(chatId: string, filename: string, content: Bytes, fileId: string, stamp: Stamp)
      returns (id: string)
      modifies this
      ensures id == fileId
      ensures files == PutFile(old(files), chatId, fileId, content)
      ensures messages == old(messages) + [MessageRecord(stamp.id, chatId, "system", "File:" + filename, stamp.at)]
      ensures GetFile(chatId, id) == Some(content)
    {
      id := fileId;
      var chatFiles := if chatId in files then files[chatId] else map[];
      files := files[chatId := chatFiles[fileId := content]];
      var metadata := "File:" + filename;
      var _ := AddMessage(chatId, "system", metadata, stamp);
    }

    /** The stored bytes, or `None` when the chat has no files or no file with that id. */
    function GetFile(chatId: string, fileId: string): (r: Option<Bytes>)
      reads this
      ensures r.Some? <==> chatId in files && fileId in files[chatId]
      ensures r.Some? ==> r.value == files[chatId][fileId]
    {
      Lookup(files, chatId, fileId)
    }

    /** Exactly the chat's records, ordered by creation time. */
    function GetMessages(chatId: string): (history: seq<MessageRecord>)
      reads this
      ensures forall r :: r in history <==> r in messages && r.chatId == chatId
      ensures multiset(history) == multiset(ChatRecords(messages, chatId))
      ensures forall i, j :: 0 <= i < j < |history| ==> history[i].createdAt <= history[j].createdAt
    {
      HistoryExact(messages, chatId);
      HistorySorted(messages, chatId);
      History(messages, chatId)
    }
  }

  // ---------------------------------------------------------------------
  // Lemmas

  lemma {:induction false} NoChatRecords(ms: seq<MessageRecord>, chatId: string)
    requires forall r :: r in ms ==> r.chatId != chatId
    ensures ChatRecords(ms, chatId) == []
  {
    if ms != [] {
      assert ms[|ms| - 1] in ms;
      NoChatRecords(ms[..|ms| - 1], chatId);
    }
  }

  lemma ChatRecordsSnoc(ms: seq<MessageRecord>, x: MessageRecord, chatId: string)
    ensures ChatRecords(ms + [x], chatId) == ChatRecords(ms, chatId) + (if x.chatId == chatId then [x] else [])
    ensures FirstSeen(ms + [x]) == if x.chatId in FirstSeen(ms) then FirstSeen(ms) else FirstSeen(ms) + [x.chatId]
  {
    assert (ms + [x])[..|ms + [x]| - 1] == ms;
  }

  lemma {:induction false} ChatRecordsMembers(ms: seq<MessageRecord>, chatId: string)
    ensures forall r :: r in ChatRecords(ms, chatId) <==> r in ms && r.chatId == chatId
  {
    if ms != [] {
      ChatRecordsMembers(ms[..|ms| - 1], chatId);
      assert ms == ms[..|ms| - 1] + [ms[|ms| - 1]];
    }
  }

  /** An id is first-seen exactly when some record carries it, and then the
      chat has at least one record. */
  lemma {:induction false} FirstSeenOccurs(ms: seq<MessageRecord>)
    ensures forall c :: c in FirstSeen(ms) <==> |ChatRecords(ms, c)| > 0
    ensures forall c :: c in FirstSeen(ms) <==> exists r :: r in ms && r.chatId == c
  {
    if ms != [] {
      FirstSeenOccurs(ms[..|ms| - 1]);
    }
    forall c ensures |ChatRecords(ms, c)| > 0 <==> exists r :: r in ms && r.chatId == c {
      ChatRecordsMembers(ms, c);
      if |ChatRecords(ms, c)| > 0 {
        assert ChatRecords(ms, c)[0] in ChatRecords(ms, c);
      }
    }
  }

  /** `list_chats` lists each chat once. */
  lemma {:induction false} FirstSeenDistinct(ms: seq<MessageRecord>)
    ensures forall i, j :: 0 <= i < j < |FirstSeen(ms)| ==> FirstSeen(ms)[i] != FirstSeen(ms)[j]
  {
    if ms != [] {
      FirstSeenDistinct(ms[..|ms| - 1]);
    }
  }

  /** `list_chats` lists the chats in the order they first occur: the chat
      listed earlier has a record before every record of the chat listed later. */
  lemma {:induction false} FirstSeenOrder(ms: seq<MessageRecord>)
    ensures forall i, j, k :: 0 <= i < j < |FirstSeen(ms)| && 0 <= k < |ms| && ms[k].chatId == FirstSeen(ms)[j]
              ==> exists k' :: 0 <= k' < k && ms[k'].chatId == FirstSeen(ms)[i]
  {
    if ms != [] {
      var prefix := ms[..|ms| - 1];
      var last := ms[|ms| - 1];
      var old_ids := FirstSeen(prefix);
      var ids := FirstSeen(ms);
      FirstSeenOrder(prefix);
      FirstSeenOccurs(prefix);
      forall i, j, k | 0 <= i < j < |ids| && 0 <= k < |ms| && ms[k].chatId == ids[j]
        ensures exists k' :: 0 <= k' < k && ms[k'].chatId == ids[i]
      {
        assert i < |old_ids| && ids[i] == old_ids[i] && old_ids[i] in old_ids;
        var r0 :| r0 in prefix && r0.chatId == ids[i];
        var k0 :| 0 <= k0 < |prefix| && prefix[k0] == r0;
        if k < |prefix| {
          assert ms[k] == prefix[k] && prefix[k] in prefix;
          assert j < |old_ids| && ids[j] == old_ids[j];
          var k1 :| 0 <= k1 < k && prefix[k1].chatId == old_ids[i];
          assert ms[k1] == prefix[k1];
        } else {
          assert ms[k0] == prefix[k0];
        }
      }
    }
  }

  /** `list_chats` yields one summary per distinct chat, in first-seen order,
      titled "Chat " and the first six characters of the id, whose time is
      the latest creation time among that chat's records. */
  lemma SummariesSpec(ms: seq<MessageRecord>)
    ensures |Summaries(ms)| == |FirstSeen(ms)|
    ensures forall i :: 0 <= i < |Summaries(ms)| ==> Summaries(ms)[i].id == FirstSeen(ms)[i]
    ensures forall i :: 0 <= i < |Summaries(ms)| ==> Summaries(ms)[i].title == Title(FirstSeen(ms)[i])
    ensures forall i, r :: 0 <= i < |Summaries(ms)| && r in ms && r.chatId == Summaries(ms)[i].id
              ==> r.createdAt <= Summaries(ms)[i].updatedAt
    ensures forall i :: 0 <= i < |Summaries(ms)| ==>
              exists r :: r in ms && r.chatId == Summaries(ms)[i].id && r.createdAt == Summaries(ms)[i].updatedAt
    ensures forall c :: c in FirstSeen(ms) <==> exists r :: r in ms && r.chatId == c
  {
    FirstSeenOccurs(ms);
    forall c ensures forall r :: r in ChatRecords(ms, c) <==> r in ms && r.chatId == c {
      ChatRecordsMembers(ms, c);
    }
  }

  /** No records, no chats. */
  lemma SummariesEmpty(ms: seq<MessageRecord>)
    ensures Summaries(ms) == [] <==> ms == []
  {
    assert |Summaries(ms)| == |FirstSeen(ms)|;
    if ms != [] {
      var last := ms[|ms| - 1];
      var ids := FirstSeen(ms[..|ms| - 1]);
      assert last.chatId in ids ==> |ids| > 0;
    }
  }

  // ----- get_messages

  /** `get_messages` returns exactly the records of the chat. */
  lemma HistoryExact(ms: seq<MessageRecord>, chatId: string)
    ensures multiset(History(ms, chatId)) == multiset(ChatRecords(ms, chatId))
    ensures forall r :: r in History(ms, chatId) <==> r in ms && r.chatId == chatId
  {
    Sorting.SortPermutes(ChatRecords(ms, chatId), CreatedAt, false);
    ChatRecordsMembers(ms, chatId);
    forall r ensures r in History(ms, chatId) <==> r in ChatRecords(ms, chatId) {
      assert r in History(ms, chatId) <==> r in multiset(History(ms, chatId));
      assert r in ChatRecords(ms, chatId) <==> r in multiset(ChatRecords(ms, chatId));
    }
  }

  /** `get_messages` is ordered by creation time. */
  lemma HistorySorted(ms: seq<MessageRecord>, chatId: string)
    ensures forall i, j :: 0 <= i < j < |History(ms, chatId)| ==>
              History(ms, chatId)[i].createdAt <= History(ms, chatId)[j].createdAt
  {
    Sorting.SortSorted(ChatRecords(ms, chatId), CreatedAt, false);
  }

  /** Records with the same creation time keep their store order. */
  lemma HistoryStable(ms: seq<MessageRecord>, chatId: string, t: int)
    ensures Sorting.WithKey(History(ms, chatId), CreatedAt, t as real)
         == Sorting.WithKey(ChatRecords(ms, chatId), CreatedAt, t as real)
  {
    Sorting.SortStable(ChatRecords(ms, chatId), CreatedAt, false, t as real);
  }

  /** A subsequence of a list ordered by time is ordered by time. */
  lemma {:induction false} ChatRecordsInTimeOrder(ms: seq<MessageRecord>, chatId: string)
    requires forall i, j :: 0 <= i < j < |ms| ==> ms[i].createdAt <= ms[j].createdAt
    ensures Sorting.Sorted(ChatRecords(ms, chatId), CreatedAt, false)
  {
    if ms != [] {
      var prefix := ms[..|ms| - 1];
      ChatRecordsInTimeOrder(prefix, chatId);
      ChatRecordsMembers(prefix, chatId);
      forall r | r in ChatRecords(prefix, chatId) ensures r.createdAt <= ms[|ms| - 1].createdAt {
        var i :| 0 <= i < |prefix| && prefix[i] == r;
        assert ms[i] == r;
      }
    }
  }

  /** When the clock never goes back, `get_messages` is the store order. */
  lemma HistoryInInsertionOrder(ms: seq<MessageRecord>, chatId: string)
    requires forall i, j :: 0 <= i < j < |ms| ==> ms[i].createdAt <= ms[j].createdAt
    ensures History(ms, chatId) == ChatRecords(ms, chatId)
  {
    ChatRecordsInTimeOrder(ms, chatId);
    Sorting.SortOfSorted(ChatRecords(ms, chatId), CreatedAt, false);
  }

  // ----- similar_messages

  /** The pairs of the search loop belong to the chat, carry the record's
      score, and list the chat's records in store order. */
  lemma {:induction false} ScoreChatFacts(ms: seq<MessageRecord>, chatId: string,
                                         similarity: (string, string) -> real, query: string)
    ensures Records(ScoreChat(ms, chatId, similarity, query)) == ChatRecords(ms, chatId)
    ensures forall x :: x in ScoreChat(ms, chatId, similarity, query) ==>
              x.score == similarity(query, x.record.content) && x.record.chatId == chatId
  {
    if ms != [] {
      ScoreChatFacts(ms[..|ms| - 1], chatId, similarity, query);
    }
  }

  lemma {:induction false} RecordsWithScore(s: seq<Scored>, similarity: (string, string) -> real,
                                           query: string, k: real)
    requires forall x :: x in s ==> x.score == similarity(query, x.record.content)
    ensures Records(Sorting.WithKey(s, ScoreOf, k)) == WithScore(Records(s), similarity, query, k)
  {
    if s != [] {
      RecordsWithScore(s[1..], similarity, query, k);
      assert Records(s)[1..] == Records(s[1..]);
      var head := if s[0].score == k then [s[0]] else [];
      assert Records(head + Sorting.WithKey(s[1..], ScoreOf, k))
          == Records(head) + Records(Sorting.WithKey(s[1..], ScoreOf, k));
    }
  }

  /** Facts about the ranked pairs: a permutation of the loop's pairs, each
      with its record's score, ordered by non-increasing score. */
  lemma RankedFacts(ms: seq<MessageRecord>, chatId: string,
                    similarity: (string, string) -> real, query: string)
    ensures |Ranked(ms, chatId, similarity, query)| == |ChatRecords(ms, chatId)|
    ensures forall x :: x in Ranked(ms, chatId, similarity, query) <==> x in ScoreChat(ms, chatId, similarity, query)
    ensures forall x :: x in Ranked(ms, chatId, similarity, query) ==>
              x.score == similarity(query, x.record.content) && x.record.chatId == chatId
    ensures Sorting.Sorted(Ranked(ms, chatId, similarity, query), ScoreOf, true)
  {
    var s := ScoreChat(ms, chatId, similarity, query);
    ScoreChatFacts(ms, chatId, similarity, query);
    Sorting.SortPermutes(s, ScoreOf, true);
    Sorting.SortSorted(s, ScoreOf, true);
    forall x ensures x in Ranked(ms, chatId, similarity, query) <==> x in s {
      assert x in Ranked(ms, chatId, similarity, query) <==> x in multiset(Ranked(ms, chatId, similarity, query));
      assert x in s <==> x in multiset(s);
    }
  }

  /** Every record of the chat is a candidate, and nothing else is. */
  lemma CandidatesMembers(ms: seq<MessageRecord>, chatId: string,
                          similarity: (string, string) -> real, query: string)
    ensures |Candidates(ms, chatId, similarity, query)| == |ChatRecords(ms, chatId)|
    ensures forall r :: r in Candidates(ms, chatId, similarity, query) <==> r in ms && r.chatId == chatId
  {
    var s := ScoreChat(ms, chatId, similarity, query);
    var ranked := Ranked(ms, chatId, similarity, query);
    RankedFacts(ms, chatId, similarity, query);
    ScoreChatFacts(ms, chatId, similarity, query);
    ChatRecordsMembers(ms, chatId);
    forall r ensures r in Candidates(ms, chatId, similarity, query) <==> r in ChatRecords(ms, chatId) {
      if r in Candidates(ms, chatId, similarity, query) {
        var i :| 0 <= i < |ranked| && ranked[i].record == r;
        assert ranked[i] in s;
        var j :| 0 <= j < |s| && s[j] == ranked[i];
        assert Records(s)[j] == r;
      }
      if r in ChatRecords(ms, chatId) {
        var j :| 0 <= j < |Records(s)| && Records(s)[j] == r;
        assert s[j] in ranked;
        var i :| 0 <= i < |ranked| && ranked[i] == s[j];
        assert Candidates(ms, chatId, similarity, query)[i] == r;
      }
    }
  }

  /** Stability of the ranking: records with equal scores keep their store order. */
  lemma CandidatesStable(ms: seq<MessageRecord>, chatId: string,
                         similarity: (string, string) -> real, query: string, k: real)
    ensures WithScore(Candidates(ms, chatId, similarity, query), similarity, query, k)
         == WithScore(ChatRecords(ms, chatId), similarity, query, k)
  {
    var s := ScoreChat(ms, chatId, similarity, query);
    ScoreChatFacts(ms, chatId, similarity, query);
    RankedFacts(ms, chatId, similarity, query);
    Sorting.SortStable(s, ScoreOf, true, k);
    RecordsWithScore(s, similarity, query, k);
    RecordsWithScore(Ranked(ms, chatId, similarity, query), similarity, query, k);
  }

  /** The candidates are ordered by non-increasing score. */
  lemma CandidatesRanked(ms: seq<MessageRecord>, chatId: string,
                         similarity: (string, string) -> real, query: string)
    ensures forall i, j :: 0 <= i < j < |Candidates(ms, chatId, similarity, query)| ==>
              similarity(query, Candidates(ms, chatId, similarity, query)[i].content)
              >= similarity(query, Candidates(ms, chatId, similarity, query)[j].content)
  {
    var ranked := Ranked(ms, chatId, similarity, query);
    RankedFacts(ms, chatId, similarity, query);
    forall i, j | 0 <= i < j < |ranked|
      ensures similarity(query, ranked[i].record.content) >= similarity(query, ranked[j].record.content)
    {
      assert ranked[i] in ranked && ranked[j] in ranked;
      assert Sorting.InOrder(ScoreOf, true, ranked[i], ranked[j]);
    }
  }

  /** `similar_messages` is the first `limit` candidates (Python slice
      semantics), so at most `limit` records, all of the queried chat. */
  lemma SimilarIsPrefix(ms: seq<MessageRecord>, chatId: string,
                        similarity: (string, string) -> real, query: string, limit: int)
    ensures Similar(ms, chatId, similarity, query, limit)
         == PySlice(Candidates(ms, chatId, similarity, query), limit)
    ensures limit >= 0 ==> (|Similar(ms, chatId, similarity, query, limit)|
              == if limit <= |ChatRecords(ms, chatId)| then limit else |ChatRecords(ms, chatId)|)
    ensures forall r :: r in Similar(ms, chatId, similarity, query, limit) ==> r in ms && r.chatId == chatId
  {
    CandidatesMembers(ms, chatId, similarity, query);
    var c := Candidates(ms, chatId, similarity, query);
    var s := Similar(ms, chatId, similarity, query, limit);
    assert s == PySlice(c, limit);
    forall r | r in s ensures r in c {
      var i :| 0 <= i < |s| && s[i] == r;
      assert c[i] == r;
    }
  }

  /** `similar_messages` is ordered by non-increasing score. */
  lemma SimilarRanked(ms: seq<MessageRecord>, chatId: string,
                      similarity: (string, string) -> real, query: string, limit: int)
    ensures forall i, j :: 0 <= i < j < |Similar(ms, chatId, similarity, query, limit)| ==>
              similarity(query, Similar(ms, chatId, similarity, query, limit)[i].content)
              >= similarity(query, Similar(ms, chatId, similarity, query, limit)[j].content)
  {
    SimilarIsPrefix(ms, chatId, similarity, query, limit);
    CandidatesRanked(ms, chatId, similarity, query);
  }

  /** A chat without records has no similar messages. */
  lemma SimilarEmptyChat(ms: seq<MessageRecord>, chatId: string,
                         similarity: (string, string) -> real, query: string, limit: int)
    requires forall r :: r in ms ==> r.chatId != chatId
    ensures Similar(ms, chatId, similarity, query, limit) == []
  {
    CandidatesMembers(ms, chatId, similarity, query);
    NoChatRecords(ms, chatId);
    SimilarIsPrefix(ms, chatId, similarity, query, limit);
  }

  /** The first result scores at least as high as every record of the chat. */
  lemma SimilarTop(ms: seq<MessageRecord>, chatId: string,
                   similarity: (string, string) -> real, query: string, limit: int)
    requires limit > 0
    requires exists r :: r in ms && r.chatId == chatId
    ensures |Similar(ms, chatId, similarity, query, limit)| > 0
    ensures forall r :: r in ms && r.chatId == chatId ==>
              similarity(query, Similar(ms, chatId, similarity, query, limit)[0].content)
              >= similarity(query, r.content)
  {
    CandidatesMembers(ms, chatId, similarity, query);
    CandidatesRanked(ms, chatId, similarity, query);
    SimilarIsPrefix(ms, chatId, similarity, query, limit);
    var c := Candidates(ms, chatId, similarity, query);
    forall r | r in ms && r.chatId == chatId
      ensures similarity(query, c[0].content) >= similarity(query, r.content)
    {
      var i :| 0 <= i < |c| && c[i] == r;
      if i > 0 { assert similarity(query, c[0].content) >= similarity(query, c[i].content); }
    }
  }

  /** Appending a record of another chat changes neither the search nor the
      history of this chat. */
  lemma ChatIsolation(ms: seq<MessageRecord>, r: MessageRecord, chatId: string,
                      similarity: (string, string) -> real, query: string, limit: int)
    requires r.chatId != chatId
    ensures Similar(ms + [r], chatId, similarity, query, limit) == Similar(ms, chatId, similarity, query, limit)
    ensures History(ms + [r], chatId) == History(ms, chatId)
  {
    assert (ms + [r])[..|ms + [r]| - 1] == ms;
    assert ScoreChat(ms + [r], chatId, similarity, query) == ScoreChat(ms, chatId, similarity, query);
    assert ChatRecords(ms + [r], chatId) == ChatRecords(ms, chatId);
  }

  /** The first record of a chat is the whole search result for that chat. */
  lemma SimilarFirstRecord(ms: seq<MessageRecord>, r: MessageRecord,
                           similarity: (string, string) -> real, query: string, limit: int)
    requires forall x :: x in ms ==> x.chatId != r.chatId
    requires limit > 0
    ensures Similar(ms + [r], r.chatId, similarity, query, limit) == [r]
  {
    var ms' := ms + [r];
    assert ms'[..|ms'| - 1] == ms;
    NoChatRecords(ms, r.chatId);
    ScoreChatFacts(ms, r.chatId, similarity, query);
    assert ScoreChat(ms, r.chatId, similarity, query) == [];
    var x := Scored(similarity(query, r.content), r);
    assert ScoreChat(ms', r.chatId, similarity, query) == [x];
    assert Sorting.Sort([x], ScoreOf, true) == Sorting.Insert(x, [], ScoreOf, true) == [x];
    assert PySlice([x], limit) == [x];
  }
}
