/**
 * Message append with fan-out: resolve the conversation, write the message
 * row, then upsert the two mirrored index entries. A failure at any step
 * reports failure and keeps the writes already made.
 */
module MessageStore {
  import opened Wrappers
  import opened Ints
  import opened Schema
  import Partitions
  import opened ConversationIdentity

  /** How many characters of a message the index keeps as its preview. */
  const PreviewLength := 200

  /** `content[:200]`: the first 200 characters, or all of a shorter message. */
  function Preview(content: string): (p: string)
    ensures |p| == Min(PreviewLength, |content|)
    ensures p <= content
  {
    if |content| <= PreviewLength then content else content[..PreviewLength]
  }

  /** What a successful `create_message` returns: `(conversation_id, message_time, message_id)`. */
  datatype Created = Created(conversationId: Uuid, messageTime: TimeKey, messageId: Uuid)

  /** The result of `create_message` (`None` for the all-`None` tuple) and the tables it leaves behind. */
  datatype Outcome = Outcome(result: Option<Created>, tables: Tables)

  /** The index entry written for `owner`, whose counterpart in the conversation is `other`. */
  function EntryOf(owner: UserId, other: UserId, conversationId: Uuid, messageTime: TimeKey,
                   sender: UserId, content: string): IndexEntry
  {
    IndexEntry(owner, conversationId, messageTime, other, sender, Preview(content))
  }

  /**
   * `create_message` on tables `t`: `messageTime` and `messageId` are what
   * `uuid_from_time(utcnow())` and `uuid4()` would produce, `freshId` the id a
   * first contact would create, and `failing` the call that raises.
   */
  function Append(t: Tables, sender: UserId, receiver: UserId, content: string,
                  messageTime: TimeKey, messageId: Uuid, freshId: Uuid, failing: Option<Call>): (o: Outcome)
    ensures o.tables.conversationByUsers == Resolve(t.conversationByUsers, sender, receiver, freshId, failing).table
    ensures o.result.Some? ==>
      && sender != receiver
      && o.result.value.messageTime == messageTime && o.result.value.messageId == messageId
      && Names(o.tables, sender, receiver, o.result.value.conversationId)
  {
    var resolution := Resolve(t.conversationByUsers, sender, receiver, freshId, failing);
    var t1 := t.(conversationByUsers := resolution.table);
    if resolution.result.Err? then Outcome(None, t1)
    else
      var cid := resolution.result.value;
      var t2 := WriteMessage(t1, MessageRow(cid, messageTime, messageId, sender, receiver, content));
      var t3 := WriteIndexEntry(t2, EntryOf(sender, receiver, cid, messageTime, sender, content));
      var t4 := WriteIndexEntry(t3, EntryOf(receiver, sender, cid, messageTime, sender, content));
      if failing == Some(InsertMessage) then Outcome(None, t1)
      else if failing == Some(UpsertSenderIndex) then Outcome(None, t2)
      else if failing == Some(UpsertReceiverIndex) then Outcome(None, t3)
      else Outcome(Some(Created(cid, messageTime, messageId)), t4)
  }

  /** The calls that, raising, make an append fail once the conversation is resolved. */
  predicate FailsAfterResolution(failing: Option<Call>)
  {
    failing == Some(InsertMessage) || failing == Some(UpsertSenderIndex) || failing == Some(UpsertReceiverIndex)
  }

  /** A self-message reports failure and changes no table. */
  lemma AppendSelf(t: Tables, user: UserId, content: string, messageTime: TimeKey, messageId: Uuid,
                   freshId: Uuid, failing: Option<Call>)
    ensures Append(t, user, user, content, messageTime, messageId, freshId, failing) == Outcome(None, t)
  {
  }

  /** An append succeeds exactly when resolution succeeds and none of the three writes raises. */
  lemma AppendSucceeds(t: Tables, sender: UserId, receiver: UserId, content: string,
                       messageTime: TimeKey, messageId: Uuid, freshId: Uuid, failing: Option<Call>)
    ensures var o := Append(t, sender, receiver, content, messageTime, messageId, freshId, failing);
      var r := Resolve(t.conversationByUsers, sender, receiver, freshId, failing);
      && (o.result.Some? <==> r.result.Ok? && !FailsAfterResolution(failing))
      && (o.result.Some? ==> o.result.value == Created(r.result.value, messageTime, messageId))
  {
  }

  /**
   * A successful append makes exactly three writes besides the conversation
   * table: the message row under its message time in the conversation's log,
   * and one index entry for each participant under the conversation id. No
   * other partition changes.
   */
  lemma {:induction false} AppendWrites(t: Tables, sender: UserId, receiver: UserId, content: string,
                                        messageTime: TimeKey, messageId: Uuid, freshId: Uuid, failing: Option<Call>)
    requires Append(t, sender, receiver, content, messageTime, messageId, freshId, failing).result.Some?
    ensures var o := Append(t, sender, receiver, content, messageTime, messageId, freshId, failing);
      var cid := o.result.value.conversationId;
      && o.tables.conversationByUsers == Resolve(t.conversationByUsers, sender, receiver, freshId, failing).table
      && o.tables.MessageMap(cid) == t.MessageMap(cid)[messageTime := MessageRow(cid, messageTime, messageId, sender, receiver, content)]
      && o.tables.IndexMap(sender) == t.IndexMap(sender)[cid := IndexEntry(sender, cid, messageTime, receiver, sender, Preview(content))]
      && o.tables.IndexMap(receiver) == t.IndexMap(receiver)[cid := IndexEntry(receiver, cid, messageTime, sender, sender, Preview(content))]
      && (forall c :: c != cid ==> o.tables.Messages(c) == t.Messages(c))
      && (forall u :: u != sender && u != receiver ==> o.tables.Index(u) == t.Index(u))
  {
  }

  /**
   * Fan-out symmetry: on success both participants' entries for the
   * conversation carry the same message time, sender and preview, each naming
   * the other participant; the preview is a prefix of at most 200 characters,
   * while the message row keeps the whole content.
   */
  lemma {:induction false} AppendFanOut(t: Tables, sender: UserId, receiver: UserId, content: string,
                                        messageTime: TimeKey, messageId: Uuid, freshId: Uuid, failing: Option<Call>)
    requires Append(t, sender, receiver, content, messageTime, messageId, freshId, failing).result.Some?
    ensures var o := Append(t, sender, receiver, content, messageTime, messageId, freshId, failing);
      var cid := o.result.value.conversationId;
      && cid in o.tables.IndexMap(sender) && cid in o.tables.IndexMap(receiver)
      && var es, er := o.tables.IndexMap(sender)[cid], o.tables.IndexMap(receiver)[cid];
      && es.otherUserId == receiver && er.otherUserId == sender
      && es.conversationId == er.conversationId == cid
      && es.lastMessageTime == er.lastMessageTime == messageTime
      && es.lastMessageSenderId == er.lastMessageSenderId == sender
      && es.lastMessageContent == er.lastMessageContent
      && es.lastMessageContent <= content && |es.lastMessageContent| == Min(200, |content|)
      && messageTime in o.tables.MessageMap(cid)
      && o.tables.MessageMap(cid)[messageTime] == MessageRow(cid, messageTime, messageId, sender, receiver, content)
  {
    AppendWrites(t, sender, receiver, content, messageTime, messageId, freshId, failing);
  }

  /**
   * No rollback, third failure point: a failure of the receiver's index
   * upsert reports failure yet leaves the message row and the sender's entry
   * written.
   */
  lemma {:induction false} AppendPartialFailure(t: Tables, sender: UserId, receiver: UserId, content: string,
                                                messageTime: TimeKey, messageId: Uuid, freshId: Uuid)
    requires sender != receiver
    ensures var o := Append(t, sender, receiver, content, messageTime, messageId, freshId, Some(UpsertReceiverIndex));
      var cid := Resolve(t.conversationByUsers, sender, receiver, freshId, None).result.value;
      && o.result == None
      && o.tables.MessageMap(cid) == t.MessageMap(cid)[messageTime := MessageRow(cid, messageTime, messageId, sender, receiver, content)]
      && o.tables.IndexMap(sender) == t.IndexMap(sender)[cid := IndexEntry(sender, cid, messageTime, receiver, sender, Preview(content))]
      && o.tables.Index(receiver) == t.Index(receiver)
  {
  }

  /**
   * No rollback, first failure point: when the message insert raises, the
   * result is failure, and a conversation created on first contact stays
   * written while the log and the index are unchanged.
   */
  lemma {:induction false} AppendFailsAtMessage(t: Tables, sender: UserId, receiver: UserId, content: string,
                                                messageTime: TimeKey, messageId: Uuid, freshId: Uuid)
    requires sender != receiver
    ensures var o := Append(t, sender, receiver, content, messageTime, messageId, freshId, Some(InsertMessage));
      && o.result == None
      && o.tables == t.(conversationByUsers := Resolve(t.conversationByUsers, sender, receiver, freshId, None).table)
  {
  }

  /**
   * No rollback, second failure point: when the sender's index upsert raises,
   * the result is failure, the message row stays written, and no index entry
   * changes.
   */
  lemma {:induction false} AppendFailsAtSenderIndex(t: Tables, sender: UserId, receiver: UserId, content: string,
                                                    messageTime: TimeKey, messageId: Uuid, freshId: Uuid)
    requires sender != receiver
    ensures var o := Append(t, sender, receiver, content, messageTime, messageId, freshId, Some(UpsertSenderIndex));
      var cid := Resolve(t.conversationByUsers, sender, receiver, freshId, None).result.value;
      && o.result == None
      && o.tables.MessageMap(cid) == t.MessageMap(cid)[messageTime := MessageRow(cid, messageTime, messageId, sender, receiver, content)]
      && o.tables.conversationsByUser == t.conversationsByUser
  {
  }

  /** A message write of a row its conversation table names keeps the keyspace invariant. */
  lemma {:induction false} WriteMessageConsistent(t: Tables, row: MessageRow)
    requires Consistent(t)
    requires Names(t, row.senderId, row.receiverId, row.conversationId)
    ensures Consistent(WriteMessage(t, row))
  {
    var cid := row.conversationId;
    var t' := WriteMessage(t, row);
    var rows := t.Messages(cid);
    ConsistentPartitions(t, cid, 0);
    TimeLessOrder();
    Partitions.UpsertSorted(rows, row, MessageKey, TimeLess);
    Partitions.UpsertElements(rows, row, MessageKey, TimeLess);
    NamesGrow(t, t');
    forall c | c in t'.messagesByConversation ensures LogConsistent(t', c, t'.messagesByConversation[c]) {
      if c != cid {
        assert LogConsistent(t, c, t.messagesByConversation[c]);
      }
    }
    forall u | u in t'.conversationsByUser ensures IndexConsistent(t', u, t'.conversationsByUser[u]) {
      assert IndexConsistent(t, u, t.conversationsByUser[u]);
    }
  }

  /** An index write of an entry its conversation table names keeps the keyspace invariant. */
  lemma {:induction false} WriteIndexEntryConsistent(t: Tables, entry: IndexEntry)
    requires Consistent(t)
    requires Names(t, entry.userId, entry.otherUserId, entry.conversationId)
    requires entry.lastMessageSenderId == entry.userId || entry.lastMessageSenderId == entry.otherUserId
    ensures Consistent(WriteIndexEntry(t, entry))
  {
    var user := entry.userId;
    var t' := WriteIndexEntry(t, entry);
    var entries := t.Index(user);
    ConsistentPartitions(t, Uuid(0), user);
    UuidLessOrder();
    Partitions.UpsertSorted(entries, entry, EntryKey, UuidLess);
    Partitions.UpsertElements(entries, entry, EntryKey, UuidLess);
    NamesGrow(t, t');
    forall c | c in t'.messagesByConversation ensures LogConsistent(t', c, t'.messagesByConversation[c]) {
      assert LogConsistent(t, c, t.messagesByConversation[c]);
    }
    forall u | u in t'.conversationsByUser ensures IndexConsistent(t', u, t'.conversationsByUser[u]) {
      if u != user {
        assert IndexConsistent(t, u, t.conversationsByUser[u]);
      }
    }
  }

  /** Every append, successful or not, keeps the keyspace invariant, given a fresh conversation id. */
  lemma {:induction false} AppendConsistent(t: Tables, sender: UserId, receiver: UserId, content: string,
                                            messageTime: TimeKey, messageId: Uuid, freshId: Uuid, failing: Option<Call>)
    requires Consistent(t)
    requires freshId !in t.conversationByUsers.Values
    ensures Consistent(Append(t, sender, receiver, content, messageTime, messageId, freshId, failing).tables)
  {
    var r := Resolve(t.conversationByUsers, sender, receiver, freshId, failing);
    var t1 := t.(conversationByUsers := r.table);
    ResolveConsistent(t, sender, receiver, freshId, failing);
    var o := Append(t, sender, receiver, content, messageTime, messageId, freshId, failing);
    if r.result.Ok? {
      var cid := r.result.value;
      ResolveNames(t, sender, receiver, freshId, failing);
      WritesConsistent(t1, sender, receiver, content, messageTime, messageId, cid);
      var t2 := WriteMessage(t1, MessageRow(cid, messageTime, messageId, sender, receiver, content));
      var t3 := WriteIndexEntry(t2, EntryOf(sender, receiver, cid, messageTime, sender, content));
      assert o.tables == t1 || o.tables == t2 || o.tables == t3
          || o.tables == WriteIndexEntry(t3, EntryOf(receiver, sender, cid, messageTime, sender, content));
    } else {
      assert o.tables == t1;
    }
  }

  /** The three writes of an append, made for a conversation the table names, keep the invariant. */
  lemma {:induction false} WritesConsistent(t1: Tables, sender: UserId, receiver: UserId, content: string,
                                            messageTime: TimeKey, messageId: Uuid, cid: Uuid)
    requires Consistent(t1)
    requires Names(t1, sender, receiver, cid)
    ensures var t2 := WriteMessage(t1, MessageRow(cid, messageTime, messageId, sender, receiver, content));
      var t3 := WriteIndexEntry(t2, EntryOf(sender, receiver, cid, messageTime, sender, content));
      && Consistent(t2) && Consistent(t3)
      && Consistent(WriteIndexEntry(t3, EntryOf(receiver, sender, cid, messageTime, sender, content)))
  {
    var row := MessageRow(cid, messageTime, messageId, sender, receiver, content);
    WriteMessageConsistent(t1, row);
    var t2 := WriteMessage(t1, row);
    assert Names(t2, sender, receiver, cid) && Names(t2, receiver, sender, cid);
    var es := EntryOf(sender, receiver, cid, messageTime, sender, content);
    WriteIndexEntryConsistent(t2, es);
    var t3 := WriteIndexEntry(t2, es);
    assert Names(t3, receiver, sender, cid);
    WriteIndexEntryConsistent(t3, EntryOf(receiver, sender, cid, messageTime, sender, content));
  }

  /**
   * Recency overwrite: after two successful appends between the same two
   * users, in either direction, each participant's index holds one entry for
   * the conversation, and it reflects the second message only.
   */
  lemma {:induction false} AppendOverwritesEntry(t: Tables, a: UserId, b: UserId,
                                                 content1: string, time1: TimeKey, id1: Uuid, fresh1: Uuid, failing1: Option<Call>,
                                                 second: UserId, content2: string, time2: TimeKey, id2: Uuid, fresh2: Uuid, failing2: Option<Call>)
    requires second == a || second == b
    requires Append(t, a, b, content1, time1, id1, fresh1, failing1).result.Some?
    requires Append(Append(t, a, b, content1, time1, id1, fresh1, failing1).tables,
                    second, if second == a then b else a, content2, time2, id2, fresh2, failing2).result.Some?
    ensures var o1 := Append(t, a, b, content1, time1, id1, fresh1, failing1);
      var other := if second == a then b else a;
      var o2 := Append(o1.tables, second, other, content2, time2, id2, fresh2, failing2);
      var cid := o1.result.value.conversationId;
      && o2.result.value.conversationId == cid
      && cid in o2.tables.IndexMap(a) && cid in o2.tables.IndexMap(b)
      && o2.tables.IndexMap(a)[cid] == IndexEntry(a, cid, time2, b, second, Preview(content2))
      && o2.tables.IndexMap(b)[cid] == IndexEntry(b, cid, time2, a, second, Preview(content2))
  {
    var o1 := Append(t, a, b, content1, time1, id1, fresh1, failing1);
    var other := if second == a then b else a;
    var cid := o1.result.value.conversationId;
    AppendWrites(t, a, b, content1, time1, id1, fresh1, failing1);
    ResolveTwice(t.conversationByUsers, a, b, fresh1, failing1, fresh2, failing2);
    AppendWrites(o1.tables, second, other, content2, time2, id2, fresh2, failing2);
  }
}
