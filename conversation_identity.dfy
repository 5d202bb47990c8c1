/**
 * Conversation identity: the stable conversation id of a pair of distinct
 * users, read from `conversation_by_users` under the canonical key and
 * created on first contact.
 */
module ConversationIdentity {
  import opened Wrappers
  import opened Schema

  /** Why resolution failed: the `ValueError` for a self pair, or an exception from the store. */
  datatype Error = SelfConversation | StorageFailure

  /** What a resolution returns and the conversation table it leaves behind. */
  datatype Resolution = Resolution(result: Result<Uuid, Error>, table: map<UserPair, Uuid>)

  /**
   * `_get_or_create_conversation_id` on the conversation table `table`, with
   * `freshId` the id `uuid4` would generate and `failing` the call that raises.
   */
  function Resolve(table: map<UserPair, Uuid>, user1: UserId, user2: UserId, freshId: Uuid, failing: Option<Call>): (r: Resolution)
    ensures r.result.Ok? ==>
      && user1 != user2
      && CanonicalPair(user1, user2) in r.table
      && r.table[CanonicalPair(user1, user2)] == r.result.value
    ensures r.table == table || (CanonicalPair(user1, user2) !in table && r.table == table[CanonicalPair(user1, user2) := freshId])
  {
    if user1 == user2 then Resolution(Err(SelfConversation), table)
    else
      var key := CanonicalPair(user1, user2);
      if failing == Some(Lookup) then Resolution(Err(StorageFailure), table)
      else if key in table then Resolution(Ok(table[key]), table)
      else if failing == Some(InsertConversation) then Resolution(Err(StorageFailure), table)
      else Resolution(Ok(freshId), table[key := freshId])
  }

  /** A self pair is rejected before any read or write, whatever the store would do. */
  lemma ResolveSelf(table: map<UserPair, Uuid>, user: UserId, freshId: Uuid, failing: Option<Call>)
    ensures Resolve(table, user, user, freshId, failing) == Resolution(Err(SelfConversation), table)
  {
  }

  /** Resolution is commutative: both argument orders read and write the same entry and return the same id. */
  lemma ResolveCommutes(table: map<UserPair, Uuid>, a: UserId, b: UserId, freshId: Uuid, failing: Option<Call>)
    ensures Resolve(table, a, b, freshId, failing) == Resolve(table, b, a, freshId, failing)
  {
  }

  /**
   * Get-or-create: a stored id is returned without a write; otherwise exactly
   * one insert maps the canonical key to the fresh id, which is returned; a
   * failure writes nothing.
   */
  lemma ResolveGetOrCreate(table: map<UserPair, Uuid>, a: UserId, b: UserId, freshId: Uuid, failing: Option<Call>)
    requires a != b
    ensures var r := Resolve(table, a, b, freshId, failing);
      && (r.result.Err? ==> r.table == table)
      && (r.result.Ok? && CanonicalPair(a, b) in table ==> r.result.value == table[CanonicalPair(a, b)] && r.table == table)
      && (r.result.Ok? && CanonicalPair(a, b) !in table ==> r.result.value == freshId && r.table == table[CanonicalPair(a, b) := freshId])
      && (r.result.Ok? <==> failing != Some(Lookup) && (CanonicalPair(a, b) in table || failing != Some(InsertConversation)))
  {
  }

  /** A successful resolution leaves the table naming the returned id for the pair, in either order. */
  lemma ResolveNames(t: Tables, a: UserId, b: UserId, freshId: Uuid, failing: Option<Call>)
    requires Resolve(t.conversationByUsers, a, b, freshId, failing).result.Ok?
    ensures var r := Resolve(t.conversationByUsers, a, b, freshId, failing);
      && Names(t.(conversationByUsers := r.table), a, b, r.result.value)
      && Names(t.(conversationByUsers := r.table), b, a, r.result.value)
  {
  }

  /**
   * Idempotence: after a successful resolution, resolving the pair again, in
   * either order, returns the same id and writes nothing (unless the lookup
   * itself raises).
   */
  lemma {:induction false} ResolveTwice(table: map<UserPair, Uuid>, a: UserId, b: UserId,
                                        freshId1: Uuid, failing1: Option<Call>, freshId2: Uuid, failing2: Option<Call>)
    requires Resolve(table, a, b, freshId1, failing1).result.Ok?
    requires failing2 != Some(Lookup)
    ensures var first := Resolve(table, a, b, freshId1, failing1);
      && Resolve(first.table, a, b, freshId2, failing2) == first
      && Resolve(first.table, b, a, freshId2, failing2) == first
  {
    var first := Resolve(table, a, b, freshId1, failing1);
    assert CanonicalPair(a, b) in first.table && first.table[CanonicalPair(a, b)] == first.result.value;
    ResolveCommutes(first.table, a, b, freshId2, failing2);
  }

  /** With a fresh id, resolution keeps the keyspace invariant. */
  lemma {:induction false} ResolveConsistent(t: Tables, a: UserId, b: UserId, freshId: Uuid, failing: Option<Call>)
    requires Consistent(t)
    requires freshId !in t.conversationByUsers.Values
    ensures Consistent(t.(conversationByUsers := Resolve(t.conversationByUsers, a, b, freshId, failing).table))
  {
    var r := Resolve(t.conversationByUsers, a, b, freshId, failing);
    var t' := t.(conversationByUsers := r.table);
    if r.table != t.conversationByUsers {
      var key := CanonicalPair(a, b);
      assert r.table == t.conversationByUsers[key := freshId];
      NamesGrow(t, t');
      forall k1, k2 | k1 in r.table && k2 in r.table && k1 != k2 ensures r.table[k1] != r.table[k2] {
        if k1 == key {
          assert r.table[k2] == t.conversationByUsers[k2];
        } else if k2 == key {
          assert r.table[k1] == t.conversationByUsers[k1];
        }
      }
      forall c | c in t'.messagesByConversation ensures LogConsistent(t', c, t'.messagesByConversation[c]) {
        assert LogConsistent(t, c, t.messagesByConversation[c]);
      }
      forall u | u in t'.conversationsByUser ensures IndexConsistent(t', u, t'.conversationsByUser[u]) {
        assert IndexConsistent(t, u, t.conversationsByUser[u]);
      }
    }
  }
}
