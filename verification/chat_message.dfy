/**
 A chat message as the API layer sees it: the stored item plus the three ids
 fixed at construction, and its serialisation for one caller, which adds a
 `viewedStatus` saying whether that caller has seen the message.

 The two DynamoDB lookups become data: the stored messages are a map from
 message id to item, and the view records are a set of (message id, viewer
 id) pairs. A `ChatMessage` is an immutable value, so serialising one cannot
 change its item.
 */
module ChatMessageModel {
  import opened Common

  datatype ViewedStatus = VIEWED | NOT_VIEWED

  /** An attribute value of a message item or of its serialisation. */
  datatype Field = Text(text: string) | Status(status: ViewedStatus)

  type Item = map<string, Field>

  /** The stored item (absent once a refresh found no message) and the immutable ids. */
  datatype ChatMessage = ChatMessage(item: Option<Item>, id: Field, chatId: Field, userId: Field)

  /** The view records: who has viewed which message. */
  type ViewRecords = set<(Field, string)>

  const MESSAGE_ID: string := "messageId"
  const CHAT_ID: string := "chatId"
  const USER_ID: string := "userId"
  const VIEWED_STATUS: string := "viewedStatus"

  /**
   `ChatMessage.__init__`: the ids are read from the item, so an item
   missing one of them raises a KeyError for the first one missing.
   */
  function NewChatMessage(item: Item): (r: Result<ChatMessage, PyError>)
    ensures r.Ok? <==> MESSAGE_ID in item && CHAT_ID in item && USER_ID in item
    ensures r.Ok? ==>
      && r.value.item == Some(item)
      && r.value.id == item[MESSAGE_ID]
      && r.value.chatId == item[CHAT_ID]
      && r.value.userId == item[USER_ID]
    ensures MESSAGE_ID !in item ==> r == Err(KeyError(MESSAGE_ID))
    ensures MESSAGE_ID in item && CHAT_ID !in item ==> r == Err(KeyError(CHAT_ID))
    ensures MESSAGE_ID in item && CHAT_ID in item && USER_ID !in item ==> r == Err(KeyError(USER_ID))
    ensures r.Err? ==> r.error.KeyError? && r.error.key !in item
  {
    if MESSAGE_ID !in item then Err(KeyError(MESSAGE_ID))
    else if CHAT_ID !in item then Err(KeyError(CHAT_ID))
    else if USER_ID !in item then Err(KeyError(USER_ID))
    else Ok(ChatMessage(Some(item), item[MESSAGE_ID], item[CHAT_ID], item[USER_ID]))
  }

  /**
   `refresh_item`: reloads the item by the message id; when the message is
   gone the item becomes absent. The ids never change.
   */
  function RefreshItem(message: ChatMessage, messages: map<Field, Item>): (r: ChatMessage)
    ensures r.id == message.id && r.chatId == message.chatId && r.userId == message.userId
    ensures r.item.Some? <==> message.id in messages
    ensures r.item.Some? ==> r.item.value == messages[message.id]
  {
    message.(item := if message.id in messages then Some(messages[message.id]) else None)
  }

  /**
   Whether the caller sees the message as viewed: its author always does,
   anyone else once a view record of theirs exists.
   */
  predicate SeesAsViewed(item: Item, messageId: Field, caller: string, views: ViewRecords)
    requires USER_ID in item
  {
    item[USER_ID] == Text(caller) || (messageId, caller) in views
  }

  /**
   `serialize`: a copy of the item with `viewedStatus` set for the caller.
   Serialising a message whose item is absent raises an AttributeError, and
   one whose item has no `userId` a KeyError.
   */
  function Serialize(message: ChatMessage, caller: string, views: ViewRecords): (r: Result<Item, PyError>)
    ensures r.Ok? <==> message.item.Some? && USER_ID in message.item.value
    ensures message.item.None? ==> r.Err? && r.error.AttributeError?
    ensures message.item.Some? && USER_ID !in message.item.value ==> r == Err(KeyError(USER_ID))
    ensures r.Ok? ==>
      var item := message.item.value;
      && r.value.Keys == item.Keys + {VIEWED_STATUS}
      && (forall k :: k in item && k != VIEWED_STATUS ==> r.value[k] == item[k])
      && (r.value[VIEWED_STATUS] == Status(VIEWED) <==> SeesAsViewed(item, message.id, caller, views))
      && (r.value[VIEWED_STATUS] == Status(NOT_VIEWED) <==> !SeesAsViewed(item, message.id, caller, views))
  {
    match message.item
    case None => Err(AttributeError("'NoneType' object has no attribute 'copy'"))
    case Some(item) =>
      var resp := item;
      if USER_ID !in resp then Err(KeyError(USER_ID))
      else if resp[USER_ID] == Text(caller) then Ok(resp[VIEWED_STATUS := Status(VIEWED)])
      else if (message.id, caller) in views then Ok(resp[VIEWED_STATUS := Status(VIEWED)])
      else Ok(resp[VIEWED_STATUS := Status(NOT_VIEWED)])
  }

  /** Taking `viewedStatus` back out of a serialisation gives the item without it. */
  lemma SerializeRoundTrip(message: ChatMessage, caller: string, views: ViewRecords)
    requires message.item.Some? && USER_ID in message.item.value
    ensures Serialize(message, caller, views).Ok?
    ensures Serialize(message, caller, views).value - {VIEWED_STATUS} == message.item.value - {VIEWED_STATUS}
  {
    var r := Serialize(message, caller, views).value;
    var item := message.item.value;
    assert (r - {VIEWED_STATUS}).Keys == (item - {VIEWED_STATUS}).Keys;
  }

  /** The author of a message always sees it as viewed, whatever the view records say. */
  lemma AuthorSeesViewed(message: ChatMessage, author: string, views1: ViewRecords, views2: ViewRecords)
    requires message.item.Some? && USER_ID in message.item.value
    requires message.item.value[USER_ID] == Text(author)
    ensures Serialize(message, author, views1) == Serialize(message, author, views2)
    ensures Serialize(message, author, views1).value[VIEWED_STATUS] == Status(VIEWED)
  {
  }

  /**
   For anyone but the author, the status is VIEWED exactly when a view
   record for this message and caller exists.
   */
  lemma NonAuthorSeesViewedIffRecord(message: ChatMessage, caller: string, views: ViewRecords)
    requires message.item.Some? && USER_ID in message.item.value
    requires message.item.value[USER_ID] != Text(caller)
    ensures var r := Serialize(message, caller, views).value;
      && (r[VIEWED_STATUS] == Status(VIEWED) <==> (message.id, caller) in views)
      && (r[VIEWED_STATUS] == Status(NOT_VIEWED) <==> (message.id, caller) !in views)
  {
  }

  /** Recording more views never turns a VIEWED status back into NOT_VIEWED. */
  lemma ViewedIsMonotonic(message: ChatMessage, caller: string, views: ViewRecords, more: ViewRecords)
    requires views <= more
    requires Serialize(message, caller, views).Ok?
    requires Serialize(message, caller, views).value[VIEWED_STATUS] == Status(VIEWED)
    ensures Serialize(message, caller, more).value[VIEWED_STATUS] == Status(VIEWED)
  {
  }

  /**
   A refresh after construction keeps the ids read from the original item
   and loads the stored item under that message id.
   */
  lemma ConstructThenRefresh(item: Item, messages: map<Field, Item>)
    requires MESSAGE_ID in item && CHAT_ID in item && USER_ID in item
    ensures var m := NewChatMessage(item).value;
      var refreshed := RefreshItem(m, messages);
      && refreshed.id == item[MESSAGE_ID]
      && refreshed.chatId == item[CHAT_ID]
      && refreshed.userId == item[USER_ID]
      && (item[MESSAGE_ID] in messages ==> refreshed.item == Some(messages[item[MESSAGE_ID]]))
  {
  }
}
