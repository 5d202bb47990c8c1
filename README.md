# Messenger data-access layer, modelled in Dafny

This project models the data-access layer of a two-party direct-messaging
service backed by a wide-column store (`app/models/cassandra_models.py`). The
layer does three things:

- It resolves a stable conversation id for a pair of users. A self pair is
  rejected. The pair is canonicalised to `(min, max)`. An id is created on
  first contact.
- It appends a message to the conversation's time-ordered log. It then fans
  the write out to both participants' per-user index of conversations, with a
  200-character preview.
- It serves cursor-paged reads: a conversation's messages, its messages
  strictly before a time, and a user's conversations.

The three tables the layer touches are the fields of the class
`CassandraModels.Keyspace`:

- `conversation_by_users`: a map from the canonical pair to the id.
- `messages_by_conversation`: per conversation, the rows in ascending
  `message_time` order.
- `conversations_by_user`: per user, the index entries in ascending
  conversation-id order.

Each Python function is a method of that class. The state-changing methods
are specified by pure functions over the tables: `ConversationIdentity.Resolve`
and `MessageStore.Append`. The listed properties are proved as lemmas about
those functions.

Modules:

- `Wrappers`: `Option` and `Result`.
- `Ints`: Python's `min` and `max`.
- `Partitions`: how an INSERT lands in a partition clustered by a key. It is an
  upsert at the key's sorted position.
- `Paging`: the driver's paged `execute`, with an opaque paging state that
  wraps an offset.
- `Schema`: rows, keys, the writes, and the keyspace invariant `Consistent`.
- `ConversationIdentity`, `MessageStore`, `ReadPaths`: the three components.
- `CassandraModels`: the class.

Things the model takes as parameters:

- Nondeterminism. The `uuid4()` ids and the `uuid_from_time` time keys are
  parameters. A first-contact id must be fresh: it may not already be in the
  conversation table.
- Failures. The parameter `failing` names the `session.execute` call that
  raises, if any. The model assumes a call that raises writes nothing.
- Read failures. The parameter `unavailable` says the read's `execute` raises.

A time-based UUID is a `TimeKey(timestamp, tiebreak)`, ordered
lexicographically. `created_at` is its timestamp component.

Modelling assumptions (not verified properties):

- An index entry is keyed by user and conversation id, so a new message
  overwrites the entry. This follows the note "INSERT acts as UPSERT on primary
  key" at `app/models/cassandra_models.py:387`. The table definitions in
  `scripts/setup_db.py` say otherwise: they cluster by `last_message_at`. The
  model follows the columns the core writes.
- A user's conversations are scanned in ascending conversation-id order. That
  is the clustering order under the assumed key. So they are not "sorted by
  most recent", despite the docstring at
  `app/models/cassandra_models.py:217`.
- A fetch size of zero or less turns paging off: the rest of the scan comes
  back as one page. A paging state is returned exactly when rows remain.

## Model

| member | source | states |
|---|---|---|
| `Schema.CanonicalPair` | app/models/cassandra_models.py:35-36 | the lookup key is ordered (`k.0 <= k.1`) and holds exactly the two given users |
| `ConversationIdentity.Resolve` | app/models/cassandra_models.py:33-65 | a success means the two users differ and the table then maps their canonical key to the returned id; the table is either unchanged or gains exactly that key, mapped to the fresh id, where it was absent |
| `ConversationIdentity.ResolveSelf` | app/models/cassandra_models.py:33-34 | a self pair fails with the `ValueError` before any read or write, even when the store would raise, and the table is unchanged |
| `ConversationIdentity.ResolveCommutes` | app/models/cassandra_models.py:35-52 | resolving `(a, b)` and `(b, a)` gives the same result and the same table |
| `ConversationIdentity.ResolveGetOrCreate` | app/models/cassandra_models.py:48-65 | a stored id is returned with no write; otherwise one insert maps the canonical key to the fresh id, which is returned; a failure writes nothing; success happens exactly when neither the lookup nor a needed insert raises |
| `ConversationIdentity.ResolveNames` | app/models/cassandra_models.py:35-65 | after a successful resolution the table maps the pair, in either order, to the returned id |
| `ConversationIdentity.ResolveTwice` | app/models/cassandra_models.py:48-52 | a second sequential resolution, in either order, returns the same id and writes nothing |
| `ConversationIdentity.ResolveConsistent` | app/models/cassandra_models.py:55-63 | with a fresh id, resolution keeps the keyspace invariant: canonical keys and one distinct id per pair |
| `CassandraModels.Keyspace.GetOrCreateConversationId` | app/models/cassandra_models.py:28-65 | returns `Resolve`'s result and leaves `Resolve`'s table; the two other tables are unchanged; the invariant is kept |
| `CassandraModels.Keyspace.CreateOrGetConversation` | app/models/cassandra_models.py:268-279 | returns the resolved id, or `None` exactly when resolution raised; tables as for resolution |
| `MessageStore.Preview` | app/models/cassandra_models.py:107 | the preview is a prefix of the content with length `min(200, |content|)` |
| `MessageStore.Append` | app/models/cassandra_models.py:78-120 | the conversation table after an append is the one resolution leaves; a success means the users differ, echoes the given message time and id, and returns the id the table holds for the pair |
| `MessageStore.AppendSelf` | app/models/cassandra_models.py:78-80 | a self-message returns the all-`None` result and changes no table |
| `MessageStore.AppendSucceeds` | app/models/cassandra_models.py:78-120 | an append succeeds exactly when resolution succeeds and none of the three writes raises; it then returns `(conversation_id, message_time, message_id)` |
| `MessageStore.AppendWrites` | app/models/cassandra_models.py:86-112 | a successful append writes the message row under `(conversation_id, message_time)` and one entry per participant under the conversation id; no other partition changes |
| `MessageStore.AppendFanOut` | app/models/cassandra_models.py:93-112 | the two entries mirror each other: each has the other user as counterpart, and they share conversation, time, sender and preview; the preview is a prefix of at most 200 characters; the stored row keeps the full content |
| `MessageStore.AppendFailsAtMessage` | app/models/cassandra_models.py:86-120 | when the message insert raises, the result is the all-`None` result; a conversation created on first contact stays written, and the log and the index are unchanged |
| `MessageStore.AppendFailsAtSenderIndex` | app/models/cassandra_models.py:86-120 | when the sender's index upsert raises, the result is the all-`None` result; the message row stays written, and no index entry changes |
| `MessageStore.AppendPartialFailure` | app/models/cassandra_models.py:93-120 | when the receiver's upsert raises, the result is the all-`None` result, and the message row and the sender's entry stay written |
| `MessageStore.AppendConsistent` | app/models/cassandra_models.py:78-112 | every append, successful or not, keeps the keyspace invariant |
| `MessageStore.WritesConsistent` | app/models/cassandra_models.py:86-112 | the message insert and the two index upserts, made for a conversation whose pair the table names, each keep the invariant |
| `MessageStore.AppendOverwritesEntry` | app/models/cassandra_models.py:99-112 | after two appends between the same users, in either direction, both participants hold one entry for the conversation, and it reflects the second message |
| `MessageStore.WriteMessageConsistent` | app/models/cassandra_models.py:86-95 | writing a message row whose pair the conversation table names keeps the invariant |
| `MessageStore.WriteIndexEntryConsistent` | app/models/cassandra_models.py:98-112 | writing an index entry whose pair the conversation table names keeps the invariant |
| `CassandraModels.Keyspace.CreateMessage` | app/models/cassandra_models.py:68-120 | returns `Append`'s result, leaves `Append`'s tables after the resolution and the three sequential writes, and keeps the invariant |
| `Schema.OneConversationPerPair` | app/models/cassandra_models.py:35-65 | in a consistent store, two message rows are in the same conversation exactly when they are between the same unordered pair of users |
| `Schema.OneEntryPerConversation` | app/models/cassandra_models.py:99-111 | a consistent store holds at most one index entry per user and conversation |
| `Schema.WriteMessage` | app/models/cassandra_models.py:86-95 | a message insert changes only its conversation's log, where a lookup by message time now sees the new row and every other time is unchanged |
| `Schema.WriteIndexEntry` | app/models/cassandra_models.py:98-112 | an index upsert changes only its user's partition, where a lookup by conversation id now sees the new entry and every other id is unchanged |
| `Partitions.Upsert` | app/models/cassandra_models.py:86-111 | an INSERT adds at most one row and the inserted row is present afterwards |
| `Partitions.UpsertSorted` | app/models/cassandra_models.py:86-95 | an INSERT keeps a partition in strict clustering-key order |
| `Partitions.UpsertAsMap` | app/models/cassandra_models.py:86-111 | after an INSERT, a lookup by key sees the new row under its key and every other key unchanged |
| `Partitions.UpsertElements` | app/models/cassandra_models.py:86-111 | every row other than the inserted one was there before |
| `Partitions.UpsertLength` | app/models/cassandra_models.py:86-111 | an INSERT under a new key adds one row; one under an existing key adds none |
| `Partitions.SortedAsMap` | app/models/cassandra_models.py:139-146 | in a sorted partition, the row stored under a row's key is that row |
| `Partitions.AsMapContents` | app/models/cassandra_models.py:139-146 | every row of a partition is stored under its own key, and the map holds nothing else |
| `Paging.FetchPage` | app/models/cassandra_models.py:139-146 | a page is the slice of the scan that starts at the paging state, with `min(page_size, remaining)` rows; a paging state comes back exactly when rows remain, and it points just past the page |
| `Paging.ScanFromRest` | app/models/cassandra_models.py:143-146 | following the returned paging states yields every remaining row once and in order |
| `Paging.ScanAll` | app/models/cassandra_models.py:143-146 | a scan started without a paging state and continued through the paging states returns the whole partition, with no gaps and no repeats |
| `ReadPaths.CreatedAt` | app/models/cassandra_models.py:149-153 | `created_at` is missing exactly when `message_time` is missing, and is otherwise the key's timestamp |
| `ReadPaths.FormatMessage` | app/models/cassandra_models.py:148-154 | each dictionary gets `id = message_id` and the `created_at` above; no other field changes |
| `ReadPaths.FormattedRow` | app/models/cassandra_models.py:145-154 | a stored row read back carries its message id, its timestamp and its untruncated content |
| `ReadPaths.Summarize` | app/models/cassandra_models.py:236-249 | a summary carries the entry's conversation id as `id`, the queried user as `user1_id`, the counterpart as `user2_id`, the entry's time-key timestamp as `last_message_at` and its preview as `last_message_content` |
| `ReadPaths.SummaryNamesConversation` | app/models/cassandra_models.py:235-249 | in a consistent store, each summary has `user1_id` equal to the queried user, a different `user2_id`, and the id the conversation table holds for the two |
| `ReadPaths.RowsBefore` | app/models/cassandra_models.py:179 | the filter keeps exactly the rows of the scan whose `message_time` is strictly less than the key, never more copies of a row than the scan holds |
| `ReadPaths.RowsBeforeNone` | app/models/cassandra_models.py:179 | a scan with no row before the key keeps nothing |
| `ReadPaths.RowsBeforePrefix` | app/models/cassandra_models.py:177-185 | on a partition in time order, the filtered rows are a prefix of the partition |
| `ReadPaths.BeforeTimestamp` | app/models/cassandra_models.py:174-185 | rows from an earlier timestamp are all kept; rows from a later one never are; rows from the same timestamp are kept exactly when their tie-breaker is smaller than the derived key's |
| `CassandraModels.Keyspace.GetConversationMessages` | app/models/cassandra_models.py:124-160 | the result is the formatted `FetchPage` of the conversation's log, and its paging state; it has at most `page_size` rows; a storage error gives `([], None)` |
| `CassandraModels.Keyspace.GetMessagesBeforeTimestamp` | app/models/cassandra_models.py:164-202 | as above, over the rows strictly before `uuid_from_time(before_timestamp)`; every returned message has a time key below it; a storage error gives `([], None)` |
| `CassandraModels.Keyspace.GetUserConversations` | app/models/cassandra_models.py:211-255 | the result is the summaries of `FetchPage` of the user's index, and its paging state; each has `user1_id` equal to the user; at most `page_size` of them; a storage error gives `([], None)` |
| `CassandraModels.Keyspace.GetConversation` | app/models/cassandra_models.py:259-264 | always `None`; it reads no table |
| `CassandraModels.FormatAll` | app/models/cassandra_models.py:145-154 | the loop gives every fetched row, in order, its `created_at` and `id` |
| `CassandraModels.AppendThenScanMessages` | app/models/cassandra_models.py:86-95 | after a successful append, a paged scan of the conversation returns the new message with its id, full content, sender, receiver and timestamp |
| `CassandraModels.AppendThenScanConversations` | app/models/cassandra_models.py:98-112 | after a successful append, a paged scan of either participant's conversations lists the conversation, the other participant, the message time and the preview |

## Left out

- The commented-out asynchronous copy of the layer, at `app/models/cassandra_models.py:280-638`. It is dead code that repeats the live logic.
- `scripts/setup_db.py`: schema provisioning, environment variables and connection retries. All of it is I/O, and `scripts/setup_db.py` is not part of this model. Its table definitions differ from the columns the core writes, so no keys are taken from them.
- The driver and its configuration: `SimpleStatement`, the `LOCAL_QUORUM` consistency levels and `cassandra_client.get_session()`. In-memory tables stand in for the session.
- `uuid.uuid4()`, `uuid_from_time(datetime.utcnow())` and the clock. They are nondeterministic, so their values are parameters.
- The float conversion of `created_at` through `datetime.utcfromtimestamp(t / 1e9)`. It is floating point. It also reads the version-1 UUID `time` field as nanoseconds since 1970, whereas section 4.1.4 of RFC 4122 defines it in 100-nanosecond units since 1582-10-15. `created_at` is modelled only as the key's timestamp component.
- Logging, `async`/`await`, and the race between two concurrent first contacts of the same pair. The lookup and the insert are not atomic, so both may insert. The model is sequential.
- Storage writes with an unknown outcome. A call that raises is modelled as having written nothing. In the real store, a write that times out may still have been applied.
- Paging across concurrent writes. The paging state wraps an offset. The resumption laws (`Paging.ScanFromRest`, `Paging.ScanAll`) hold for a partition that does not change between pages. The real driver resumes after the last clustering key instead.
- `CassandraModels.FormatAll`: it rewrites each element of a local sequence, whereas the source mutates the dictionaries of a fresh list. No caller can observe the difference.
- Python's `uuid.UUID` byte layout and the store's byte-wise ordering of UUIDs. Conversation ids are ordered by an abstract value, and time keys by timestamp and then an abstract tie-breaker.
- Exceptions a read could raise for reasons other than storage, such as a paging state from another query. Every read error is folded into `unavailable`.
- The default `page_size = 20` of the three reads (`app/models/cassandra_models.py:126`, `:167`, `:213`). Dafny has no default arguments, so every caller passes `pageSize`.
