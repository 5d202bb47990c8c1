/**
 * The read paths' row handling: the strict `message_time <` filter, the
 * message dictionaries `created_at`/`id` are added to, and the conversation
 * summaries built from index entries.
 */
module ReadPaths {
  import opened Wrappers
  import opened Schema
  import Partitions

  /**
   * A message as the driver hands it back (a dictionary whose columns `.get`
   * may find missing), with the `created_at` and `id` keys the read paths add.
   */
  datatype MessageRecord = MessageRecord(
    conversationId: Uuid,
    messageTime: Option<TimeKey>,
    messageId: Option<Uuid>,
    senderId: UserId,
    receiverId: UserId,
    content: string,
    createdAt: Option<int>,
    id: Option<Uuid>)

  /** A stored row as the driver returns it, before the read path adds `created_at` and `id`. */
  function Fetched(row: MessageRow): MessageRecord
  {
    MessageRecord(row.conversationId, Some(row.messageTime), Some(row.messageId),
                  row.senderId, row.receiverId, row.content, None, None)
  }

  /** The timestamp component of a time key, or nothing when the key is missing. */
  function CreatedAt(time: Option<TimeKey>): (r: Option<int>)
    ensures r.None? <==> time.None?
    ensures time.Some? ==> r == Some(time.value.timestamp)
  {
    match time
    case None => None
    case Some(key) => Some(key.timestamp)
  }

  /** The in-place update of one message dictionary: `created_at` from `message_time`, `id` from `message_id`. */
  function FormatMessage(m: MessageRecord): (f: MessageRecord)
    ensures f.id == m.messageId
    ensures f.createdAt == CreatedAt(m.messageTime)
    ensures f.(createdAt := m.createdAt, id := m.id) == m
  {
    m.(createdAt := CreatedAt(m.messageTime), id := m.messageId)
  }

  /** A stored message, read back and formatted, carries its id, its timestamp and its untruncated content. */
  lemma FormattedRow(row: MessageRow)
    ensures var f := FormatMessage(Fetched(row));
      && f.id == Some(row.messageId) && f.messageId == Some(row.messageId)
      && f.createdAt == Some(row.messageTime.timestamp)
      && f.conversationId == row.conversationId && f.content == row.content
      && f.senderId == row.senderId && f.receiverId == row.receiverId
  {
  }

  /** The summary `get_user_conversations` builds from an index entry; it exposes no sender field. */
  datatype ConversationSummary = ConversationSummary(
    id: Uuid,
    user1Id: UserId,
    user2Id: UserId,
    lastMessageAt: Option<int>,
    lastMessageContent: string)

  function Summarize(userId: UserId, entry: IndexEntry): (s: ConversationSummary)
    ensures s.id == entry.conversationId
    ensures s.user1Id == userId && s.user2Id == entry.otherUserId
    ensures s.lastMessageAt == Some(entry.lastMessageTime.timestamp)
    ensures s.lastMessageContent == entry.lastMessageContent
  {
    ConversationSummary(entry.conversationId, userId, entry.otherUserId,
                        CreatedAt(Some(entry.lastMessageTime)), entry.lastMessageContent)
  }

  /**
   * In a consistent store every summary listed for a user names that user
   * first, a different user second, and the conversation id that the
   * conversation table holds for the two.
   */
  lemma {:induction false} SummaryNamesConversation(t: Tables, userId: UserId, entry: IndexEntry)
    requires Consistent(t)
    requires entry in t.Index(userId)
    ensures var s := Summarize(userId, entry);
      && s.user1Id == userId && s.user2Id != userId
      && Names(t, s.user1Id, s.user2Id, s.id)
      && s.lastMessageAt == Some(entry.lastMessageTime.timestamp)
      && s.lastMessageContent == entry.lastMessageContent
  {
    ConsistentPartitions(t, Uuid(0), userId);
  }

  /** The rows of a scan that `WHERE message_time < key` keeps, each as often as the scan holds it. */
  function RowsBefore(rows: seq<MessageRow>, key: TimeKey): (r: seq<MessageRow>)
    ensures |r| <= |rows|
    ensures multiset(r) <= multiset(rows)
    ensures forall x :: x in r <==> x in rows && TimeLess(x.messageTime, key)
  {
    if rows == [] then []
    else
      assert rows == [rows[0]] + rows[1..];
      (if TimeLess(rows[0].messageTime, key) then [rows[0]] else []) + RowsBefore(rows[1..], key)
  }

  /** A scan none of whose rows precede the key keeps nothing. */
  lemma {:induction false} RowsBeforeNone(rows: seq<MessageRow>, key: TimeKey)
    requires forall x :: x in rows ==> !TimeLess(x.messageTime, key)
    ensures RowsBefore(rows, key) == []
  {
    if rows != [] {
      assert rows[0] in rows;
      assert forall x :: x in rows[1..] ==> x in rows;
      RowsBeforeNone(rows[1..], key);
    }
  }

  /** On a partition in time order, the filtered rows are a prefix of the partition. */
  lemma {:induction false} RowsBeforePrefix(rows: seq<MessageRow>, key: TimeKey)
    requires Partitions.Sorted(rows, MessageKey, TimeLess)
    ensures RowsBefore(rows, key) <= rows
  {
    if rows != [] {
      var tail := rows[1..];
      assert Partitions.Sorted(tail, MessageKey, TimeLess) by {
        forall i, j | 0 <= i < j < |tail| ensures TimeLess(MessageKey(tail[i]), MessageKey(tail[j])) {
          assert tail[i] == rows[i + 1] && tail[j] == rows[j + 1];
        }
      }
      if TimeLess(rows[0].messageTime, key) {
        RowsBeforePrefix(tail, key);
        assert RowsBefore(rows, key) == [rows[0]] + RowsBefore(tail, key);
      } else {
        forall x | x in tail ensures !TimeLess(x.messageTime, key) {
          var m :| 0 <= m < |tail| && tail[m] == x;
          assert rows[m + 1] == x;
          assert TimeLess(rows[0].messageTime, x.messageTime);
        }
        RowsBeforeNone(tail, key);
      }
    }
  }

  /**
   * The filter is strict on the key `uuid_from_time(before)` derives: rows
   * from an earlier timestamp are all kept, rows from a later one never are,
   * and rows from the same timestamp depend on the derived key's tie-breaker.
   */
  lemma BeforeTimestamp(rows: seq<MessageRow>, before: int, tiebreak: int)
    ensures forall x :: x in RowsBefore(rows, TimeKey(before, tiebreak)) ==> x.messageTime.timestamp <= before
    ensures forall x :: x in rows && x.messageTime.timestamp < before ==> x in RowsBefore(rows, TimeKey(before, tiebreak))
    ensures forall x :: x in rows && x.messageTime.timestamp == before ==>
              (x in RowsBefore(rows, TimeKey(before, tiebreak)) <==> x.messageTime.tiebreak < tiebreak)
  {
  }
}
