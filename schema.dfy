/**
 * The three tables of the messenger keyspace, their rows and keys, the
 * writes the core issues against them, and the invariant that the
 * denormalised copies agree with the conversation table.
 */
module Schema {
  import opened Wrappers
  import opened Ints
  import Partitions

  /** Users are identified by integers owned outside this core. */
  type UserId = int

  /** An opaque identifier (a random version-4 UUID); the store orders identifiers by their value. */
  datatype Uuid = Uuid(value: nat)

  /**
   * A time-based (version-1) UUID as the store orders it: by its timestamp
   * first, then by the clock-sequence and node bits, abstracted as one
   * tie-breaking integer.
   */
  datatype TimeKey = TimeKey(timestamp: int, tiebreak: int)

  predicate TimeLess(a: TimeKey, b: TimeKey)
  {
    a.timestamp < b.timestamp || (a.timestamp == b.timestamp && a.tiebreak < b.tiebreak)
  }

  predicate UuidLess(a: Uuid, b: Uuid)
  {
    a.value < b.value
  }

  lemma TimeLessOrder()
    ensures Partitions.StrictTotalOrder(TimeLess)
  {
  }

  lemma UuidLessOrder()
    ensures Partitions.StrictTotalOrder(UuidLess)
  {
  }

  /** A row of `messages_by_conversation`, partitioned by conversation and clustered by `message_time`. */
  datatype MessageRow = MessageRow(
    conversationId: Uuid,
    messageTime: TimeKey,
    messageId: Uuid,
    senderId: UserId,
    receiverId: UserId,
    content: string)

  /** A row of `conversations_by_user`, partitioned by user and (by assumption) clustered by conversation. */
  datatype IndexEntry = IndexEntry(
    userId: UserId,
    conversationId: Uuid,
    lastMessageTime: TimeKey,
    otherUserId: UserId,
    lastMessageSenderId: UserId,
    lastMessageContent: string)

  function MessageKey(row: MessageRow): TimeKey
  {
    row.messageTime
  }

  function EntryKey(entry: IndexEntry): Uuid
  {
    entry.conversationId
  }

  /** The primary key `(user_a_id, user_b_id)` of `conversation_by_users`. */
  type UserPair = (UserId, UserId)

  /** The lookup key of a user pair: the smaller identifier first, so both argument orders give one key. */
  function CanonicalPair(user1: UserId, user2: UserId): (k: UserPair)
    ensures k.0 <= k.1
    ensures {k.0, k.1} == {user1, user2}
  {
    (Min(user1, user2), Max(user1, user2))
  }

  /**
   * The `session.execute` calls the core issues, by purpose. An operation is
   * given the call that raises, if any; a raising call writes nothing, and the
   * calls before it stay written.
   */
  datatype Call = Lookup | InsertConversation | InsertMessage | UpsertSenderIndex | UpsertReceiverIndex

  /** The contents of the three tables; a partition that was never written is empty. */
  datatype Tables = Tables(
    conversationByUsers: map<UserPair, Uuid>,
    messagesByConversation: map<Uuid, seq<MessageRow>>,
    conversationsByUser: map<UserId, seq<IndexEntry>>)
  {
    /** The partition of `messages_by_conversation` for one conversation. */
    function Messages(conversationId: Uuid): seq<MessageRow>
    {
      if conversationId in messagesByConversation then messagesByConversation[conversationId] else []
    }

    /** The partition of `conversations_by_user` for one user. */
    function Index(userId: UserId): seq<IndexEntry>
    {
      if userId in conversationsByUser then conversationsByUser[userId] else []
    }

    /** A user's index as the map from conversation id to entry that a point lookup sees. */
    function IndexMap(userId: UserId): map<Uuid, IndexEntry>
    {
      Partitions.AsMap(Index(userId), EntryKey)
    }

    /** A conversation's log as the map from message time to row that a point lookup sees. */
    function MessageMap(conversationId: Uuid): map<TimeKey, MessageRow>
    {
      Partitions.AsMap(Messages(conversationId), MessageKey)
    }
  }

  /** `INSERT INTO messages_by_conversation`: the row lands in its conversation's partition. */
  function WriteMessage(t: Tables, row: MessageRow): (w: Tables)
    ensures w.conversationByUsers == t.conversationByUsers && w.conversationsByUser == t.conversationsByUser
    ensures w.MessageMap(row.conversationId) == t.MessageMap(row.conversationId)[row.messageTime := row]
    ensures forall c :: c != row.conversationId ==> w.Messages(c) == t.Messages(c)
  {
    Partitions.UpsertAsMap(t.Messages(row.conversationId), row, MessageKey, TimeLess);
    t.(messagesByConversation := t.messagesByConversation[row.conversationId :=
      Partitions.Upsert(t.Messages(row.conversationId), row, MessageKey, TimeLess)])
  }

  /** `INSERT INTO conversations_by_user`: the entry lands in its user's partition. */
  function WriteIndexEntry(t: Tables, entry: IndexEntry): (w: Tables)
    ensures w.conversationByUsers == t.conversationByUsers && w.messagesByConversation == t.messagesByConversation
    ensures w.IndexMap(entry.userId) == t.IndexMap(entry.userId)[entry.conversationId := entry]
    ensures forall u :: u != entry.userId ==> w.Index(u) == t.Index(u)
  {
    Partitions.UpsertAsMap(t.Index(entry.userId), entry, EntryKey, UuidLess);
    t.(conversationsByUser := t.conversationsByUser[entry.userId :=
      Partitions.Upsert(t.Index(entry.userId), entry, EntryKey, UuidLess)])
  }

  /** The conversation table maps the pair of distinct users `a`, `b` to `conversationId`. */
  ghost predicate Names(t: Tables, a: UserId, b: UserId, conversationId: Uuid)
  {
    && a != b
    && CanonicalPair(a, b) in t.conversationByUsers
    && t.conversationByUsers[CanonicalPair(a, b)] == conversationId
  }

  ghost predicate LogConsistent(t: Tables, conversationId: Uuid, rows: seq<MessageRow>)
  {
    && Partitions.Sorted(rows, MessageKey, TimeLess)
    && forall r :: r in rows ==> r.conversationId == conversationId && Names(t, r.senderId, r.receiverId, conversationId)
  }

  ghost predicate IndexConsistent(t: Tables, userId: UserId, entries: seq<IndexEntry>)
  {
    && Partitions.Sorted(entries, EntryKey, UuidLess)
    && forall e :: e in entries ==>
         && e.userId == userId
         && Names(t, userId, e.otherUserId, e.conversationId)
         && (e.lastMessageSenderId == userId || e.lastMessageSenderId == e.otherUserId)
  }

  /**
   * The keyspace invariant: the conversation table holds canonical keys only
   * and a distinct id per pair, and every message row and index entry belongs
   * to the conversation the conversation table names for its two users.
   */
  ghost predicate Consistent(t: Tables)
  {
    && (forall k :: k in t.conversationByUsers ==> k.0 < k.1)
    && (forall k1, k2 :: k1 in t.conversationByUsers && k2 in t.conversationByUsers && k1 != k2 ==>
          t.conversationByUsers[k1] != t.conversationByUsers[k2])
    && (forall c :: c in t.messagesByConversation ==> LogConsistent(t, c, t.messagesByConversation[c]))
    && (forall u :: u in t.conversationsByUser ==> IndexConsistent(t, u, t.conversationsByUser[u]))
  }

  lemma ConsistentPartitions(t: Tables, conversationId: Uuid, userId: UserId)
    requires Consistent(t)
    ensures LogConsistent(t, conversationId, t.Messages(conversationId))
    ensures IndexConsistent(t, userId, t.Index(userId))
  {
  }

  /** Adding a key to the conversation table keeps every existing row's naming valid. */
  lemma NamesGrow(t: Tables, t': Tables)
    requires forall k :: k in t.conversationByUsers ==> k in t'.conversationByUsers && t'.conversationByUsers[k] == t.conversationByUsers[k]
    ensures forall a, b, c :: Names(t, a, b, c) ==> Names(t', a, b, c)
  {
  }

  /**
   * Central invariant: one conversation per unordered pair. Every row of a
   * conversation's log is between the same two users, and any two rows in the
   * keyspace between the same two users are in the same conversation.
   */
  lemma {:induction false} OneConversationPerPair(t: Tables, c1: Uuid, c2: Uuid, r1: MessageRow, r2: MessageRow)
    requires Consistent(t)
    requires r1 in t.Messages(c1) && r2 in t.Messages(c2)
    ensures c1 == c2 <==> CanonicalPair(r1.senderId, r1.receiverId) == CanonicalPair(r2.senderId, r2.receiverId)
  {
    ConsistentPartitions(t, c1, 0);
    ConsistentPartitions(t, c2, 0);
    assert Names(t, r1.senderId, r1.receiverId, c1);
    assert Names(t, r2.senderId, r2.receiverId, c2);
  }

  /** A consistent store holds at most one index entry per user and conversation. */
  lemma {:induction false} OneEntryPerConversation(t: Tables, userId: UserId, e1: IndexEntry, e2: IndexEntry)
    requires Consistent(t)
    requires e1 in t.Index(userId) && e2 in t.Index(userId)
    requires e1.conversationId == e2.conversationId
    ensures e1 == e2
  {
    ConsistentPartitions(t, Uuid(0), userId);
    UuidLessOrder();
    Partitions.SortedAsMap(t.Index(userId), EntryKey, UuidLess);
  }
}
