/**
 * The data-access layer of the messenger: the three tables of the keyspace as
 * the fields of one object, and each data-access function as a method that
 * reads or updates them the way its statements do against the store.
 */
module CassandraModels {
  import opened Wrappers
  import opened Ints
  import opened Schema
  import Partitions
  import opened Paging
  import opened ConversationIdentity
  import opened MessageStore
  import opened ReadPaths

  class Keyspace {
    var conversationByUsers: map<UserPair, Uuid>
    var messagesByConversation: map<Uuid, seq<MessageRow>>
    var conversationsByUser: map<UserId, seq<IndexEntry>>

    /** The tables as a value. */
    function Snapshot(): Tables
      reads this
    {
      Tables(conversationByUsers, messagesByConversation, conversationsByUser)
    }

    ghost predicate Valid()
      reads this
    {
      Consistent(Snapshot())
    }

    /** An empty keyspace. */
    constructor ()
      ensures Valid()
      ensures Snapshot() == Tables(map[], map[], map[])
    {
      conversationByUsers := map[];
      messagesByConversation := map[];
      conversationsByUser := map[];
    }

    /**
     * `MessageModel._get_or_create_conversation_id`: `freshId` is the
     * `uuid4()` a first contact inserts, `failing` the call that raises.
     */
    method GetOrCreateConversationId(user1: UserId, user2: UserId, freshId: Uuid, failing: Option<Call>)
      returns (r: Result<Uuid, Error>)
      requires Valid()
      requires freshId !in conversationByUsers.Values
      modifies this
      ensures Valid()
      ensures r == Resolve(old(conversationByUsers), user1, user2, freshId, failing).result
      ensures conversationByUsers == Resolve(old(conversationByUsers), user1, user2, freshId, failing).table
      ensures messagesByConversation == old(messagesByConversation)
      ensures conversationsByUser == old(conversationsByUser)
    {
      ResolveConsistent(Snapshot(), user1, user2, freshId, failing);
      if user1 == user2 {
        return Err(SelfConversation);
      }
      var userA := Min(user1, user2);
      var userB := Max(user1, user2);
      if failing == Some(Lookup) {
        return Err(StorageFailure);
      }
      var row := if (userA, userB) in conversationByUsers then Some(conversationByUsers[(userA, userB)]) else None;
      if row.Some? {
        return Ok(row.value);
      }
      if failing == Some(InsertConversation) {
        return Err(StorageFailure);
      }
      conversationByUsers := conversationByUsers[(userA, userB) := freshId];
      return Ok(freshId);
    }

    /**
     * `MessageModel.create_message`: `messageTime` and `messageId` are what
     * `uuid_from_time(utcnow())` and `uuid4()` produce, `freshId` the id a
     * first contact creates. `None` stands for `(None, None, None)`.
     */
    method CreateMessage(sender: UserId, receiver: UserId, content: string,
                         messageTime: TimeKey, messageId: Uuid, freshId: Uuid, failing: Option<Call>)
      returns (r: Option<Created>)
      requires Valid()
      requires freshId !in conversationByUsers.Values
      modifies this
      ensures Valid()
      ensures r == Append(old(Snapshot()), sender, receiver, content, messageTime, messageId, freshId, failing).result
      ensures Snapshot() == Append(old(Snapshot()), sender, receiver, content, messageTime, messageId, freshId, failing).tables
    {
      AppendConsistent(Snapshot(), sender, receiver, content, messageTime, messageId, freshId, failing);
      var resolved := GetOrCreateConversationId(sender, receiver, freshId, failing);
      if resolved.Err? {
        return None;
      }
      var conversationId := resolved.value;

      if failing == Some(InsertMessage) {
        return None;
      }
      var row := MessageRow(conversationId, messageTime, messageId, sender, receiver, content);
      messagesByConversation := messagesByConversation[conversationId :=
        Partitions.Upsert(Snapshot().Messages(conversationId), row, MessageKey, TimeLess)];

      var preview := Preview(content);
      if failing == Some(UpsertSenderIndex) {
        return None;
      }
      var senderEntry := IndexEntry(sender, conversationId, messageTime, receiver, sender, preview);
      conversationsByUser := conversationsByUser[sender :=
        Partitions.Upsert(Snapshot().Index(sender), senderEntry, EntryKey, UuidLess)];

      if failing == Some(UpsertReceiverIndex) {
        return None;
      }
      var receiverEntry := IndexEntry(receiver, conversationId, messageTime, sender, sender, preview);
      conversationsByUser := conversationsByUser[receiver :=
        Partitions.Upsert(Snapshot().Index(receiver), receiverEntry, EntryKey, UuidLess)];

      return Some(Created(conversationId, messageTime, messageId));
    }

    /**
     * `MessageModel.get_conversation_messages`: one page of the conversation's
     * log in time order, each row given `created_at` and `id`; when the store
     * is `unavailable` the query raises and an empty page comes back.
     */
    method GetConversationMessages(conversationId: Uuid, pageSize: int, pagingState: Option<PagingState>, unavailable: bool)
      returns (messages: seq<MessageRecord>, nextPagingState: Option<PagingState>)
      ensures unavailable ==> messages == [] && nextPagingState == None
      ensures !unavailable ==>
        var page := FetchPage(Snapshot().Messages(conversationId), pageSize, pagingState);
        && nextPagingState == page.next
        && |messages| == |page.rows|
        && forall i :: 0 <= i < |messages| ==> messages[i] == FormatMessage(Fetched(page.rows[i]))
      ensures pageSize > 0 ==> |messages| <= pageSize
    {
      if unavailable {
        return [], None;
      }
      var page := FetchPage(Snapshot().Messages(conversationId), pageSize, pagingState);
      messages := FormatAll(page.rows);
      nextPagingState := page.next;
    }

    /**
     * `MessageModel.get_messages_before_timestamp`: as above, over the rows
     * whose `message_time` is strictly before the key `uuid_from_time`
     * derives from `beforeTimestamp`; its random clock-sequence and node bits
     * are `tiebreak`.
     */
    method GetMessagesBeforeTimestamp(conversationId: Uuid, beforeTimestamp: int, tiebreak: int,
                                      pageSize: int, pagingState: Option<PagingState>, unavailable: bool)
      returns (messages: seq<MessageRecord>, nextPagingState: Option<PagingState>)
      ensures unavailable ==> messages == [] && nextPagingState == None
      ensures !unavailable ==>
        var page := FetchPage(RowsBefore(Snapshot().Messages(conversationId), TimeKey(beforeTimestamp, tiebreak)), pageSize, pagingState);
        && nextPagingState == page.next
        && |messages| == |page.rows|
        && forall i :: 0 <= i < |messages| ==> messages[i] == FormatMessage(Fetched(page.rows[i]))
      ensures pageSize > 0 ==> |messages| <= pageSize
      ensures forall m :: m in messages ==>
        m.messageTime.Some? && TimeLess(m.messageTime.value, TimeKey(beforeTimestamp, tiebreak))
    {
      var beforeKey := TimeKey(beforeTimestamp, tiebreak);
      if unavailable {
        return [], None;
      }
      var page := FetchPage(RowsBefore(Snapshot().Messages(conversationId), beforeKey), pageSize, pagingState);
      messages := FormatAll(page.rows);
      nextPagingState := page.next;
      forall m | m in messages
        ensures m.messageTime.Some? && TimeLess(m.messageTime.value, beforeKey)
      {
        var i :| 0 <= i < |messages| && messages[i] == m;
        assert page.rows[i] in RowsBefore(Snapshot().Messages(conversationId), beforeKey);
      }
    }

    /**
     * `ConversationModel.get_user_conversations`: one page of the user's
     * index, each entry turned into a conversation summary.
     */
    method GetUserConversations(userId: UserId, pageSize: int, pagingState: Option<PagingState>, unavailable: bool)
      returns (conversations: seq<ConversationSummary>, nextPagingState: Option<PagingState>)
      ensures unavailable ==> conversations == [] && nextPagingState == None
      ensures !unavailable ==>
        var page := FetchPage(Snapshot().Index(userId), pageSize, pagingState);
        && nextPagingState == page.next
        && |conversations| == |page.rows|
        && forall i :: 0 <= i < |conversations| ==> conversations[i] == Summarize(userId, page.rows[i])
      ensures pageSize > 0 ==> |conversations| <= pageSize
      ensures forall s :: s in conversations ==> s.user1Id == userId
    {
      if unavailable {
        return [], None;
      }
      var page := FetchPage(Snapshot().Index(userId), pageSize, pagingState);
      var formatted: seq<ConversationSummary> := [];
      for i := 0 to |page.rows|
        invariant |formatted| == i
        invariant forall j :: 0 <= j < i ==> formatted[j] == Summarize(userId, page.rows[j])
      {
        formatted := formatted + [Summarize(userId, page.rows[i])];
      }
      return formatted, page.next;
    }

    /** `ConversationModel.get_conversation`: unsupported by the schema, so nothing is queried and nothing found. */
    static function GetConversation(conversationId: Uuid): (r: Option<ConversationSummary>)
      ensures r == None
    {
      None
    }

    /** `ConversationModel.create_or_get_conversation`: the resolved id, or `None` when resolution raised. */
    method CreateOrGetConversation(user1: UserId, user2: UserId, freshId: Uuid, failing: Option<Call>)
      returns (r: Option<Uuid>)
      requires Valid()
      requires freshId !in conversationByUsers.Values
      modifies this
      ensures Valid()
      ensures var res := Resolve(old(conversationByUsers), user1, user2, freshId, failing);
        && (r.Some? <==> res.result.Ok?)
        && (r.Some? ==> r.value == res.result.value)
        && conversationByUsers == res.table
      ensures messagesByConversation == old(messagesByConversation)
      ensures conversationsByUser == old(conversationsByUser)
    {
      var resolved := GetOrCreateConversationId(user1, user2, freshId, failing);
      r := if resolved.Ok? then Some(resolved.value) else None;
    }
  }

  /**
   * Append visibility: after a successful append, scanning the conversation
   * page by page returns the new message, formatted with its id and its full
   * content, whatever the page size.
   */
  lemma {:induction false} AppendThenScanMessages(t: Tables, sender: UserId, receiver: UserId, content: string,
                                                  messageTime: TimeKey, messageId: Uuid, freshId: Uuid, failing: Option<Call>,
                                                  pageSize: int)
    requires Append(t, sender, receiver, content, messageTime, messageId, freshId, failing).result.Some?
    ensures var o := Append(t, sender, receiver, content, messageTime, messageId, freshId, failing);
      exists row :: row in ScanFrom(o.tables.Messages(o.result.value.conversationId), pageSize, None) &&
        var m := FormatMessage(Fetched(row));
        && m.id == Some(messageId) && m.content == content && m.createdAt == Some(messageTime.timestamp)
        && m.senderId == sender && m.receiverId == receiver
  {
    var o := Append(t, sender, receiver, content, messageTime, messageId, freshId, failing);
    var cid := o.result.value.conversationId;
    var rows := o.tables.Messages(cid);
    AppendFanOut(t, sender, receiver, content, messageTime, messageId, freshId, failing);
    var row := o.tables.MessageMap(cid)[messageTime];
    assert row == MessageRow(cid, messageTime, messageId, sender, receiver, content);
    Partitions.AsMapContents(rows, MessageKey);
    ScanAll(rows, pageSize);
    FormattedRow(row);
  }

  /**
   * Fan-out visibility: after a successful append, scanning either
   * participant's conversations lists the conversation with the other
   * participant, the message time and the same preview.
   */
  lemma {:induction false} AppendThenScanConversations(t: Tables, sender: UserId, receiver: UserId, content: string,
                                                       messageTime: TimeKey, messageId: Uuid, freshId: Uuid, failing: Option<Call>,
                                                       user: UserId, pageSize: int)
    requires user == sender || user == receiver
    requires Append(t, sender, receiver, content, messageTime, messageId, freshId, failing).result.Some?
    ensures var o := Append(t, sender, receiver, content, messageTime, messageId, freshId, failing);
      exists entry :: entry in ScanFrom(o.tables.Index(user), pageSize, None) &&
        var s := Summarize(user, entry);
        && s.id == o.result.value.conversationId
        && s.user1Id == user
        && s.user2Id == (if user == sender then receiver else sender)
        && s.lastMessageAt == Some(messageTime.timestamp)
        && s.lastMessageContent == Preview(content)
  {
    var o := Append(t, sender, receiver, content, messageTime, messageId, freshId, failing);
    var cid := o.result.value.conversationId;
    var entries := o.tables.Index(user);
    AppendFanOut(t, sender, receiver, content, messageTime, messageId, freshId, failing);
    var entry := o.tables.IndexMap(user)[cid];
    assert entry.conversationId == cid && entry.otherUserId == (if user == sender then receiver else sender);
    assert entry.lastMessageTime == messageTime && entry.lastMessageContent == Preview(content);
    Partitions.AsMapContents(entries, EntryKey);
    ScanAll(entries, pageSize);
  }

  /** The loop over the fetched rows: each message dictionary gets its `created_at` and `id`, in place. */
  method FormatAll(rows: seq<MessageRow>) returns (messages: seq<MessageRecord>)
    ensures |messages| == |rows|
    ensures forall i :: 0 <= i < |rows| ==> messages[i] == FormatMessage(Fetched(rows[i]))
  {
    messages := seq(|rows|, j requires 0 <= j < |rows| => Fetched(rows[j]));
    var i := 0;
    while i < |messages|
      invariant 0 <= i <= |messages| == |rows|
      invariant forall j :: 0 <= j < i ==> messages[j] == FormatMessage(Fetched(rows[j]))
      invariant forall j :: i <= j < |messages| ==> messages[j] == Fetched(rows[j])
    {
      messages := messages[i := FormatMessage(messages[i])];
      i := i + 1;
    }
  }
}
