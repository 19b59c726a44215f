/**
 The DynamoDB layer of follow relationships. A "following" record says that
 one user follows another; it lives under the primary key
 `following/{follower}/{followed}` with the fixed sort key `-`, and it is also
 visible in two secondary indexes: GSI-A1 keyed by `follower/{follower}` and
 GSI-A2 keyed by `followed/{followed}`, both sorted by `{status}/{followedAt}`.

 The table is an in-memory map from primary key to record. The three write
 builders return a transact description; `Execute` applies one to the table
 with DynamoDB's conditional-write semantics, keeping the table as it was when
 the condition fails.
 */
module FollowDynamo {
  import opened Common

  /** The primary key of a table row. */
  datatype Key = Key(partitionKey: string, sortKey: string)

  /** A following record, one field per attribute the add transact writes. */
  datatype FollowItem = FollowItem(
    schemaVersion: int,
    partitionKey: string,
    sortKey: string,
    gsiA1PartitionKey: string,
    gsiA1SortKey: string,
    gsiA2PartitionKey: string,
    gsiA2SortKey: string,
    followedAt: string,
    followStatus: string,
    followerUserId: string,
    followedUserId: string
  )

  type Store = map<Key, FollowItem>

  /** The three transact kinds the builders produce. */
  datatype Transact =
    | Put(item: FollowItem)                                 // only creates
    | Update(key: Key, status: string, indexSortKey: string) // only updates
    | Delete(key: Key)                                      // only deletes an existing row

  /** The table after a transact, and whether its condition held. */
  datatype Outcome = Committed(store: Store) | ConditionFailed(store: Store)

  const SCHEMA_VERSION: int := 1
  const SORT_KEY: string := "-"

  function FollowingPartitionKey(followerUserId: string, followedUserId: string): string
  {
    "following/" + followerUserId + "/" + followedUserId
  }

  function FollowingKey(followerUserId: string, followedUserId: string): Key
  {
    Key(FollowingPartitionKey(followerUserId, followedUserId), SORT_KEY)
  }

  /** GSI-A1 partition: the records in which the user is the follower. */
  function FollowerIndexKey(userId: string): string
  {
    "follower/" + userId
  }

  /** GSI-A2 partition: the records in which the user is the followed. */
  function FollowedIndexKey(userId: string): string
  {
    "followed/" + userId
  }

  /** The sort key of both indexes. */
  function StatusSortKey(status: string, followedAt: string): string
  {
    status + "/" + followedAt
  }

  function KeyOf(item: FollowItem): Key
  {
    Key(item.partitionKey, item.sortKey)
  }

  /** The row a transact's condition and write are about. */
  function TargetKey(t: Transact): Key
  {
    match t
    case Put(item) => KeyOf(item)
    case Update(key, _, _) => key
    case Delete(key) => key
  }

  /** A row laid out the way the add transact lays it out. */
  predicate WellFormedItem(k: Key, item: FollowItem)
  {
    && k == KeyOf(item)
    && item.partitionKey == FollowingPartitionKey(item.followerUserId, item.followedUserId)
    && item.sortKey == SORT_KEY
    && item.gsiA1PartitionKey == FollowerIndexKey(item.followerUserId)
    && item.gsiA2PartitionKey == FollowedIndexKey(item.followedUserId)
    && item.gsiA1SortKey == StatusSortKey(item.followStatus, item.followedAt)
    && item.gsiA2SortKey == StatusSortKey(item.followStatus, item.followedAt)
  }

  predicate WellFormed(store: Store)
  {
    forall k :: k in store ==> WellFormedItem(k, store[k])
  }

  /** Every stored status is a single key segment. */
  predicate StatusesSlashFree(store: Store)
  {
    forall k :: k in store ==> NoSlash(store[k].followStatus)
  }

  /** `get_following`: the record for the pair, if there is one. */
  function GetFollowing(store: Store, followerUserId: string, followedUserId: string): (r: Option<FollowItem>)
    ensures r.Some? <==> FollowingKey(followerUserId, followedUserId) in store
    ensures r.Some? ==> r.value == store[FollowingKey(followerUserId, followedUserId)]
  {
    var k := FollowingKey(followerUserId, followedUserId);
    if k in store then Some(store[k]) else None
  }

  /**
   `transact_add_following`: a create-only put of a fresh record. The
   timestamp is a parameter instead of a reading of the clock.
   */
  function TransactAddFollowing(followerUserId: string, followedUserId: string, status: string, followedAt: string): (t: Transact)
    ensures t.Put? && WellFormedItem(TargetKey(t), t.item)
    ensures TargetKey(t) == FollowingKey(followerUserId, followedUserId)
    ensures t.item.followerUserId == followerUserId && t.item.followedUserId == followedUserId
    ensures t.item.followStatus == status && t.item.followedAt == followedAt
    ensures t.item.schemaVersion == SCHEMA_VERSION
  {
    var sk := StatusSortKey(status, followedAt);
    Put(FollowItem(
      schemaVersion := SCHEMA_VERSION,
      partitionKey := FollowingPartitionKey(followerUserId, followedUserId),
      sortKey := SORT_KEY,
      gsiA1PartitionKey := FollowerIndexKey(followerUserId),
      gsiA1SortKey := sk,
      gsiA2PartitionKey := FollowedIndexKey(followedUserId),
      gsiA2SortKey := sk,
      followedAt := followedAt,
      followStatus := status,
      followerUserId := followerUserId,
      followedUserId := followedUserId
    ))
  }

  /**
   `transact_update_following_status`: an update-only rewrite of the status
   and of both index sort keys, keeping the given record's `followedAt`.
   */
  function TransactUpdateFollowingStatus(followItem: FollowItem, status: string): (t: Transact)
    ensures t.Update? && TargetKey(t) == KeyOf(followItem)
    ensures t.status == status
    ensures t.indexSortKey == StatusSortKey(status, followItem.followedAt)
  {
    Update(KeyOf(followItem), status, StatusSortKey(status, followItem.followedAt))
  }

  /** `transact_delete_following`: a delete that fails when the row is absent. */
  function TransactDeleteFollowing(followItem: FollowItem): (t: Transact)
    ensures t.Delete? && TargetKey(t) == KeyOf(followItem)
  {
    Delete(KeyOf(followItem))
  }

  /**
   DynamoDB's execution of one conditional transact: a put requires the row
   to be absent, an update or a delete requires it to be present. A failed
   condition leaves the table as it was; a write touches only its own row.
   */
  function Execute(store: Store, t: Transact): (r: Outcome)
    ensures r.ConditionFailed? ==> r.store == store
    ensures t.Put? ==> (r.ConditionFailed? <==> TargetKey(t) in store)
    ensures !t.Put? ==> (r.ConditionFailed? <==> TargetKey(t) !in store)
    ensures forall k :: k != TargetKey(t) ==> (k in r.store <==> k in store)
    ensures forall k :: k != TargetKey(t) && k in store ==> r.store[k] == store[k]
    ensures r.Committed? && t.Put? ==> TargetKey(t) in r.store && r.store[TargetKey(t)] == t.item
    ensures r.Committed? && t.Update? ==>
      && TargetKey(t) in r.store
      && r.store[TargetKey(t)] == store[TargetKey(t)].(
        followStatus := t.status, gsiA1SortKey := t.indexSortKey, gsiA2SortKey := t.indexSortKey)
    ensures r.Committed? && t.Delete? ==> TargetKey(t) !in r.store
  {
    match t
    case Put(item) =>
      if KeyOf(item) in store then ConditionFailed(store)
      else Committed(store[KeyOf(item) := item])
    case Update(key, status, sk) =>
      if key !in store then ConditionFailed(store)
      else Committed(store[key := store[key].(followStatus := status, gsiA1SortKey := sk, gsiA2SortKey := sk)])
    case Delete(key) =>
      if key !in store then ConditionFailed(store)
      else Committed(store - {key})
  }

  /** Whether a row answers the GSI-A1 key condition of `generate_followed_items`. */
  predicate MatchesFollowed(item: FollowItem, userId: string, status: Option<string>)
  {
    && item.gsiA1PartitionKey == FollowerIndexKey(userId)
    && (status.Some? ==> StartsWith(item.gsiA1SortKey, status.value + "/"))
  }

  /** Whether a row answers the GSI-A2 key condition of `generate_follower_items`. */
  predicate MatchesFollower(item: FollowItem, userId: string, status: Option<string>)
  {
    && item.gsiA2PartitionKey == FollowedIndexKey(userId)
    && (status.Some? ==> StartsWith(item.gsiA2SortKey, status.value + "/"))
  }

  /**
   `generate_followed_items`: the rows of the users that `userId` follows,
   optionally narrowed to one status. Paging is not modelled: all matching
   rows are returned, keyed by their primary key.
   */
  function GenerateFollowedItems(store: Store, userId: string, status: Option<string>): (r: Store)
    ensures r.Keys <= store.Keys
    ensures forall k :: k in r ==> r[k] == store[k] && MatchesFollowed(r[k], userId, status)
    ensures forall k :: k in store && MatchesFollowed(store[k], userId, status) ==> k in r
  {
    map k | k in store && MatchesFollowed(store[k], userId, status) :: store[k]
  }

  /** `generate_follower_items`: the rows of the users that follow `userId`. */
  function GenerateFollowerItems(store: Store, userId: string, status: Option<string>): (r: Store)
    ensures r.Keys <= store.Keys
    ensures forall k :: k in r ==> r[k] == store[k] && MatchesFollower(r[k], userId, status)
    ensures forall k :: k in store && MatchesFollower(store[k], userId, status) ==> k in r
  {
    map k | k in store && MatchesFollower(store[k], userId, status) :: store[k]
  }

  // ---------------------------------------------------------------------------
  // Properties of the key schema and of the conditional writes
  // ---------------------------------------------------------------------------

  /** Distinct pairs of slash-free follower ids get distinct primary keys. */
  lemma {:induction false} FollowingKeyInjective(a: string, b: string, c: string, d: string)
    requires NoSlash(a) && NoSlash(c)
    requires FollowingPartitionKey(a, b) == FollowingPartitionKey(c, d)
    ensures a == c && b == d
  {
    var p := "following/";
    assert FollowingPartitionKey(a, b) == p + (a + "/" + b);
    assert FollowingPartitionKey(c, d) == p + (c + "/" + d);
    PrefixCancel(p, a + "/" + b, c + "/" + d);
    SlashTerminatedSplit(a, c, b, d);
  }

  /**
   Add-then-get: the add succeeds exactly when the pair has no record yet,
   and then `get_following` finds the record with the index keys and
   attributes the add wrote. A failed add leaves the table unchanged.
   */
  lemma AddThenGet(store: Store, follower: string, followed: string, status: string, followedAt: string)
    ensures var r := Execute(store, TransactAddFollowing(follower, followed, status, followedAt));
      && (r.Committed? <==> GetFollowing(store, follower, followed).None?)
      && (r.ConditionFailed? ==> r.store == store)
      && (r.Committed? ==>
        var got := GetFollowing(r.store, follower, followed);
        && got.Some?
        && got.value.followerUserId == follower
        && got.value.followedUserId == followed
        && got.value.followStatus == status
        && got.value.followedAt == followedAt
        && got.value.gsiA1PartitionKey == "follower/" + follower
        && got.value.gsiA2PartitionKey == "followed/" + followed
        && got.value.gsiA1SortKey == status + "/" + followedAt
        && got.value.gsiA2SortKey == status + "/" + followedAt)
  {
  }

  /**
   Following the same user twice: whatever status and time the second
   attempt carries, it is rejected and the table keeps the first record.
   */
  lemma DoubleFollowRejected(store: Store, follower: string, followed: string,
                             status1: string, at1: string, status2: string, at2: string)
    requires Execute(store, TransactAddFollowing(follower, followed, status1, at1)).Committed?
    ensures var s1 := Execute(store, TransactAddFollowing(follower, followed, status1, at1)).store;
      Execute(s1, TransactAddFollowing(follower, followed, status2, at2)) == ConditionFailed(s1)
  {
  }

  /** An add leaves the record of every other pair of slash-free follower ids alone. */
  lemma AddLeavesOtherPairs(store: Store, follower: string, followed: string, status: string, followedAt: string,
                            otherFollower: string, otherFollowed: string)
    requires NoSlash(follower) && NoSlash(otherFollower)
    requires (otherFollower, otherFollowed) != (follower, followed)
    ensures var r := Execute(store, TransactAddFollowing(follower, followed, status, followedAt));
      GetFollowing(r.store, otherFollower, otherFollowed) == GetFollowing(store, otherFollower, otherFollowed)
  {
    if FollowingPartitionKey(follower, followed) == FollowingPartitionKey(otherFollower, otherFollowed) {
      FollowingKeyInjective(follower, followed, otherFollower, otherFollowed);
    }
  }

  /**
   Update of a stored record: it commits, rewrites the status and both
   index sort keys to `{status}/{followedAt}` with the stored `followedAt`,
   and changes no other attribute of the record.
   */
  lemma UpdateRewritesStatusOnly(store: Store, followItem: FollowItem, status: string)
    requires KeyOf(followItem) in store
    requires store[KeyOf(followItem)].followedAt == followItem.followedAt
    ensures var r := Execute(store, TransactUpdateFollowingStatus(followItem, status));
      var before := store[KeyOf(followItem)];
      && r.Committed?
      && KeyOf(followItem) in r.store
      && var after := r.store[KeyOf(followItem)];
      && after.followStatus == status
      && after.gsiA1SortKey == status + "/" + before.followedAt
      && after.gsiA2SortKey == status + "/" + before.followedAt
      && after.followedAt == before.followedAt
      && after.(followStatus := before.followStatus,
                gsiA1SortKey := before.gsiA1SortKey,
                gsiA2SortKey := before.gsiA2SortKey) == before
  {
  }

  /** Update only updates: without a stored record it is rejected. */
  lemma UpdateOfMissingRejected(store: Store, followItem: FollowItem, status: string)
    requires KeyOf(followItem) !in store
    ensures Execute(store, TransactUpdateFollowingStatus(followItem, status)) == ConditionFailed(store)
  {
  }

  /**
   Delete: rejected when the record is absent (unfollowing a user one does
   not follow), otherwise it removes exactly that row.
   */
  lemma DeleteRemovesExactly(store: Store, followItem: FollowItem)
    ensures var r := Execute(store, TransactDeleteFollowing(followItem));
      && (r.ConditionFailed? <==> KeyOf(followItem) !in store)
      && (r.ConditionFailed? ==> r.store == store)
      && (r.Committed? ==> r.store.Keys == store.Keys - {KeyOf(followItem)})
      && (forall k :: k in r.store ==> r.store[k] == store[k])
  {
  }

  /** Unfollow after follow: the pair has no record any more. */
  lemma AddThenDelete(store: Store, follower: string, followed: string, status: string, followedAt: string)
    requires GetFollowing(store, follower, followed).None?
    ensures var added := Execute(store, TransactAddFollowing(follower, followed, status, followedAt)).store;
      var item := GetFollowing(added, follower, followed).value;
      var r := Execute(added, TransactDeleteFollowing(item));
      && r.Committed?
      && GetFollowing(r.store, follower, followed).None?
      && r.store == store
  {
    var added := Execute(store, TransactAddFollowing(follower, followed, status, followedAt)).store;
    var item := GetFollowing(added, follower, followed).value;
    var r := Execute(added, TransactDeleteFollowing(item));
    assert r.store.Keys == store.Keys;
  }

  // ---------------------------------------------------------------------------
  // The key schema is an invariant of the three writes
  // ---------------------------------------------------------------------------

  lemma AddPreservesWellFormed(store: Store, follower: string, followed: string, status: string, followedAt: string)
    requires WellFormed(store)
    ensures var r := Execute(store, TransactAddFollowing(follower, followed, status, followedAt));
      && WellFormed(r.store)
      && (StatusesSlashFree(store) && NoSlash(status) ==> StatusesSlashFree(r.store))
  {
  }

  /** The caller passes the stored record, as `get_following` returned it. */
  lemma UpdatePreservesWellFormed(store: Store, followItem: FollowItem, status: string)
    requires WellFormed(store)
    requires KeyOf(followItem) in store ==> store[KeyOf(followItem)].followedAt == followItem.followedAt
    ensures var r := Execute(store, TransactUpdateFollowingStatus(followItem, status));
      && WellFormed(r.store)
      && (StatusesSlashFree(store) && NoSlash(status) ==> StatusesSlashFree(r.store))
  {
  }

  lemma DeletePreservesWellFormed(store: Store, followItem: FollowItem)
    requires WellFormed(store)
    ensures var r := Execute(store, TransactDeleteFollowing(followItem));
      && WellFormed(r.store)
      && (StatusesSlashFree(store) ==> StatusesSlashFree(r.store))
  {
  }

  // ---------------------------------------------------------------------------
  // The index queries select exactly the intended records
  // ---------------------------------------------------------------------------

  /**
   `generate_followed_items` for user u returns exactly the records in which
   u is the follower, and with a status exactly those that also have that
   status, provided statuses are single key segments.
   */
  lemma {:induction false} FollowedItemsExact(store: Store, userId: string, status: Option<string>)
    requires WellFormed(store)
    requires status.Some? ==> StatusesSlashFree(store) && NoSlash(status.value)
    ensures forall k :: k in GenerateFollowedItems(store, userId, status) <==>
      && k in store
      && store[k].followerUserId == userId
      && (status.Some? ==> store[k].followStatus == status.value)
  {
    var r := GenerateFollowedItems(store, userId, status);
    forall k | k in store
      ensures k in r <==>
        store[k].followerUserId == userId && (status.Some? ==> store[k].followStatus == status.value)
    {
      var item := store[k];
      PrefixCancel("follower/", item.followerUserId, userId);
      if status.Some? {
        SlashPrefixSelects(status.value, item.followStatus, item.followedAt);
      }
    }
  }

  /** `generate_follower_items` is the mirror image over the followed user. */
  lemma {:induction false} FollowerItemsExact(store: Store, userId: string, status: Option<string>)
    requires WellFormed(store)
    requires status.Some? ==> StatusesSlashFree(store) && NoSlash(status.value)
    ensures forall k :: k in GenerateFollowerItems(store, userId, status) <==>
      && k in store
      && store[k].followedUserId == userId
      && (status.Some? ==> store[k].followStatus == status.value)
  {
    var r := GenerateFollowerItems(store, userId, status);
    forall k | k in store
      ensures k in r <==>
        store[k].followedUserId == userId && (status.Some? ==> store[k].followStatus == status.value)
    {
      var item := store[k];
      PrefixCancel("followed/", item.followedUserId, userId);
      if status.Some? {
        SlashPrefixSelects(status.value, item.followStatus, item.followedAt);
      }
    }
  }

  /**
   A follow edge appears in both directions: after a successful add, the
   follower's followed-items query and the followed user's follower-items
   query, each narrowed to the new status, contain the new record.
   */
  lemma AddVisibleInBothIndexes(store: Store, follower: string, followed: string, status: string, followedAt: string)
    requires GetFollowing(store, follower, followed).None?
    ensures var after := Execute(store, TransactAddFollowing(follower, followed, status, followedAt)).store;
      && FollowingKey(follower, followed) in GenerateFollowedItems(after, follower, Some(status))
      && FollowingKey(follower, followed) in GenerateFollowerItems(after, followed, Some(status))
  {
    assert (status + "/" + followedAt)[..|status| + 1] == status + "/";
  }
}
