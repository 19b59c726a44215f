# Follow edges, user search projection and chat-message serialisation

A Dafny model of three small pieces of pure logic from the backend of a
social-networking app (`real-main/app`):

- **Follow edges in DynamoDB** (`FollowDynamo`, `follow_dynamo.dfy`). A
  "following" record is stored under `following/{follower}/{followed}` with
  sort key `-`, and indexed twice: GSI-A1 by `follower/{follower}` and GSI-A2
  by `followed/{followed}`, both sorted by `{status}/{followedAt}`. The table
  is a map from primary key to record. The three transact builders (create-only
  add, update-if-exists of the status, delete-if-exists) produce a transact
  description; `Execute` applies one to the table with DynamoDB's conditional
  semantics and returns either `Committed(table)` or `ConditionFailed(table)`
  with the table unchanged. The two index queries are filters over the table.
- **Elasticsearch user documents** (`EsSearch`, `es_search.dfy`). A user's
  DynamoDB item (typed attributes such as `{"S": "alice"}`) is projected onto
  seven indexed attributes with the type tags removed; the add, update and
  delete hooks return the document request they would send to
  `https://{domain}/users/_doc/{userId}`, or none when an update changes no
  indexed value.
- **Chat-message serialisation** (`ChatMessageModel`, `chat_message.dfy`). A
  message keeps its stored item and the ids read from it at construction;
  serialising it for a caller returns a copy of the item with `viewedStatus`,
  which is VIEWED for the author and, for anyone else, exactly when a view
  record exists.

`common.dfy` (`Common`) holds the option/result types, the Python exceptions
the code raises on its own (KeyError, AssertionError, AttributeError), and the
string facts the slash-separated keys rely on: a `/`-terminated prefix selects
exactly one slash-free segment.

For well-typed inputs, the Python exceptions that the search client and the chat message raise become `Err` results, never preconditions. The follow builders take a complete stored record, so their errors on a missing record are not modelled (see "## Left out"). The clock becomes a
`followedAt` parameter. The DynamoDB lookups of the chat message become data: a
map of stored messages and a set of (message id, viewer id) view records. The
HTTP client, the AWS request signing and the DynamoDB client are not modelled.
A `ChatMessage` is an immutable value. So `serialize` cannot modify the
message's item, and no separate member states that.

## Model

| member | source | states |
|---|---|---|
| `Common.SlashPrefixSelects` | real-main/app/models/follow/dynamo.py:84-85 | a `{status}/` prefix matches a `{status'}/{followedAt}` sort key exactly when status = status', for slash-free statuses |
| `Common.SlashTerminatedSplit` | real-main/app/models/follow/dynamo.py:19 | in `a/x = b/y` with slash-free a and b, a = b and x = y (the keys' segments are recoverable) |
| `FollowDynamo.FollowingKeyInjective` | real-main/app/models/follow/dynamo.py:17-21 | two (follower, followed) pairs with slash-free follower ids share a primary key only if they are the same pair |
| `FollowDynamo.GetFollowing` | real-main/app/models/follow/dynamo.py:17-21 | the lookup finds a record exactly when one is stored under `following/{follower}/{followed}`, `-` |
| `FollowDynamo.TransactAddFollowing` | real-main/app/models/follow/dynamo.py:23-43 | the put targets the key `get_following` reads for the same pair, lays the record out with both index keys, and copies status, timestamp and user ids |
| `FollowDynamo.TransactUpdateFollowingStatus` | real-main/app/models/follow/dynamo.py:45-67 | the update targets the given record's key and sets the index sort key to `{status}/{that record's followedAt}` |
| `FollowDynamo.TransactDeleteFollowing` | real-main/app/models/follow/dynamo.py:69-79 | the delete targets the given record's key |
| `FollowDynamo.Execute` | real-main/app/models/follow/dynamo.py:40-76 | put fails exactly when the row exists, update and delete exactly when it is absent; a failure keeps the table; every other row is untouched |
| `FollowDynamo.AddThenGet` | real-main/app/models/follow/dynamo.py:23-43 | an add commits exactly when the pair has no record, and then `get_following` finds it with the index keys and attributes the add wrote |
| `FollowDynamo.DoubleFollowRejected` | real-main/app/models/follow/dynamo.py:40 | a second add for the same pair fails and keeps the table, whatever status and time it carries |
| `FollowDynamo.AddLeavesOtherPairs` | real-main/app/models/follow/dynamo.py:29 | an add does not change the record of any other pair (slash-free follower ids) |
| `FollowDynamo.UpdateRewritesStatusOnly` | real-main/app/models/follow/dynamo.py:46-64 | an update of a stored record commits, sets status and both sort keys to `{status}/{stored followedAt}`, and changes no other attribute |
| `FollowDynamo.UpdateOfMissingRejected` | real-main/app/models/follow/dynamo.py:64 | an update of an absent record fails and keeps the table |
| `FollowDynamo.DeleteRemovesExactly` | real-main/app/models/follow/dynamo.py:69-79 | a delete fails exactly when the record is absent; otherwise it removes that one key and keeps every other record |
| `FollowDynamo.AddThenDelete` | real-main/app/models/follow/dynamo.py:23-79 | following and then unfollowing a user restores the table exactly |
| `FollowDynamo.AddPreservesWellFormed` | real-main/app/models/follow/dynamo.py:28-38 | an add keeps every row laid out by the key schema, whatever the new status, and keeps every stored status slash-free when the new status is |
| `FollowDynamo.UpdatePreservesWellFormed` | real-main/app/models/follow/dynamo.py:45-67 | an update given the stored record keeps every row laid out by the key schema, whatever the new status, and keeps every stored status slash-free when the new status is |
| `FollowDynamo.DeletePreservesWellFormed` | real-main/app/models/follow/dynamo.py:69-79 | a delete keeps every row laid out by the key schema, and keeps every stored status slash-free |
| `FollowDynamo.GenerateFollowedItems` | real-main/app/models/follow/dynamo.py:81-90 | the result is the sub-table of rows whose GSI-A1 key is `follower/{user}` and, with a status, whose sort key begins with `{status}/` |
| `FollowDynamo.GenerateFollowerItems` | real-main/app/models/follow/dynamo.py:92-101 | the result is the sub-table of rows whose GSI-A2 key is `followed/{user}` and, with a status, whose sort key begins with `{status}/` |
| `FollowDynamo.FollowedItemsExact` | real-main/app/models/follow/dynamo.py:81-90 | on a well-formed table, followed items of u are exactly the records whose follower is u, and with status s exactly those that also have status s |
| `FollowDynamo.FollowerItemsExact` | real-main/app/models/follow/dynamo.py:92-101 | on a well-formed table, follower items of u are exactly the records whose followed user is u, narrowed to status s when given |
| `FollowDynamo.AddVisibleInBothIndexes` | real-main/app/models/follow/dynamo.py:31-34 | after an add, the record is returned both by the follower's followed-items query and by the followed user's follower-items query for its status |
| `EsSearch.NewClient` | real-main/app/clients/es_search.py:29-33 | a client exists exactly when region and domain are both given and non-empty; otherwise an AssertionError, the region's first |
| `EsSearch.BuildUserUrl` | real-main/app/clients/es_search.py:45-46 | the URL is an `https://` URL under `https://{domain}/users/_doc/` from which the user id reads back unchanged |
| `EsSearch.UserUrlInjective` | real-main/app/clients/es_search.py:45-46 | different user ids get different URLs |
| `EsSearch.BuildUserDoc` | real-main/app/clients/es_search.py:19-49 | the doc's keys are the indexed keys the item has, and each value is the inner value of the item's typed attribute |
| `EsSearch.DocsEqualIffAgree` | real-main/app/clients/es_search.py:48-49 | two items project to equal docs if and only if they agree on presence and inner value of every indexed attribute |
| `EsSearch.AddUser` | real-main/app/clients/es_search.py:51-55 | an item without `userId` raises KeyError; otherwise the projected doc is put at the URL of the item's `userId` |
| `EsSearch.UpdateUser` | real-main/app/clients/es_search.py:61-70 | errors exactly when a `userId` is missing or they differ; no write exactly when the items agree on indexed values; otherwise the new doc goes to the old `userId`'s URL |
| `EsSearch.DeleteUser` | real-main/app/clients/es_search.py:74-78 | an item without `userId` raises KeyError; otherwise the delete targets the URL of the item's `userId` |
| `EsSearch.UnindexedChangeSkipsWrite` | real-main/app/clients/es_search.py:63-67 | changing or adding a non-indexed attribute sends no update |
| `EsSearch.IndexedChangeOverwritesAddedDoc` | real-main/app/clients/es_search.py:51-78 | changing an indexed value sends an update to the URL the add and the delete use, carrying the doc an add of the new item would carry |
| `ChatMessageModel.NewChatMessage` | real-main/app/models/chat_message/model.py:13-19 | construction succeeds exactly when the item has `messageId`, `chatId` and `userId`, and the ids equal those attributes; otherwise a KeyError for a missing one |
| `ChatMessageModel.RefreshItem` | real-main/app/models/chat_message/model.py:21-23 | refresh loads the stored item under the message id, or none, and keeps all three ids |
| `ChatMessageModel.ConstructThenRefresh` | real-main/app/models/chat_message/model.py:13-23 | after construction and refresh the ids are still the original item's attributes |
| `ChatMessageModel.Serialize` | real-main/app/models/chat_message/model.py:25-33 | the result equals the item on every other attribute and adds `viewedStatus`, VIEWED exactly when the caller is the author or has a view record |
| `ChatMessageModel.SerializeRoundTrip` | real-main/app/models/chat_message/model.py:26 | removing `viewedStatus` from the result gives back the item without it |
| `ChatMessageModel.AuthorSeesViewed` | real-main/app/models/chat_message/model.py:27-28 | the author sees VIEWED, and the result does not depend on the view records |
| `ChatMessageModel.NonAuthorSeesViewedIffRecord` | real-main/app/models/chat_message/model.py:29-32 | anyone else sees VIEWED exactly when a view record for (message, caller) exists, NOT_VIEWED otherwise |
| `ChatMessageModel.ViewedIsMonotonic` | real-main/app/models/chat_message/model.py:25-33 | more view records never turn VIEWED into NOT_VIEWED |

## Left out

- The DynamoDB client is not part of this model. Its `get_item`, transaction execution and `generate_all_query` pagination are replaced by the in-memory table, `Execute` and whole-result queries. The order of query results is not modelled.
- The unused `limit` and `next_token` parameters of the two queries are dropped.
- `datetime.utcnow` and the timestamp serialiser are replaced by a `followedAt` string parameter.
- `FollowDynamo.FollowedItemsExact`, `FollowDynamo.FollowerItemsExact`: the status-filtered query is proved only for stored and queried statuses without `/`; the unfiltered query needs no such restriction. With a `/` in a status the prefix match could select another status.
- `FollowDynamo.AddLeavesOtherPairs`, `FollowDynamo.FollowingKeyInjective`: proved only for follower ids without `/`. Otherwise two pairs can share a primary key.
- `FollowDynamo.UpdateRewritesStatusOnly`, `FollowDynamo.UpdatePreservesWellFormed`: assume the caller passes the stored record's `followedAt`. The builder takes the timestamp from its argument, not from the table.
- `FollowDynamo.AddVisibleInBothIndexes`, `FollowDynamo.AddThenGet`: `get_following` and both index queries are modelled as reading the table after the last committed write. In DynamoDB, `get_item` without a consistent-read flag and every global secondary index query are eventually consistent, so they can return older data until the table and the indexes catch up.
- `FollowDynamo.TransactUpdateFollowingStatus`, `FollowDynamo.TransactDeleteFollowing`: they take a complete stored record. The TypeError on `None` (what `get_following` returns for an absent pair) and the KeyError on a record missing `partitionKey`, `sortKey` or `followedAt` are not modelled.
- Running several transacts as one atomic DynamoDB transaction is not modelled. Only single conditional writes are.
- The HTTP requests to Elasticsearch, AWS4Auth credential loading, logging and the warnings on unexpected status codes are left out. An operation returns the request it would send.
- Typed attributes always have exactly one entry. An empty or multi-entry attribute map cannot occur in DynamoDB's format. Inner values are strings (`S`, `N`) or booleans (`BOOL`, `NULL`). List, set and map attributes are omitted because no indexed user attribute has them.
- `ChatMessageModel.NewChatMessage`: takes a map, so the TypeError that construction from `None` would raise is not modelled.
- `EsSearch.NewClient`: the defaults read from the `REGION` and `ES_SEARCH_DOMAIN` environment variables become explicit optional arguments.
- `EsSearch.UpdateUser`: the AssertionError carries an empty message, as a bare `assert` does.
- The chat-message DynamoDB lookups `get_chat_message` and `get_chat_view_message` are not part of this model. They become a map of stored messages and a set of view records. The `strongly_consistent` flag has no effect on this model.
- The integration tests and CLI scripts are network-bound test scripting and are not modelled. The test-login cache in `integration-testing/utils/cognito.js` is not part of this model.
