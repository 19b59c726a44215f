/**
 The Elasticsearch side of user search. A user's DynamoDB item, in DynamoDB's
 typed-attribute form, is projected onto a fixed list of indexed attributes,
 and the add, update and delete hooks decide which document request to send
 to `https://{domain}/users/_doc/{userId}`. The HTTP call itself, its signing
 and the logging of its status code are not modelled: an operation returns
 the request it would send.
 */
module EsSearch {
  import opened Common

  /**
   The inner value of a typed attribute: the string of an `S` or `N`
   attribute, or the boolean of a `BOOL` or `NULL` attribute.
   */
  datatype Value = Str(s: string) | Bool(b: bool)

  /** A DynamoDB typed attribute, `{tag: inner}`, which has exactly one entry. */
  datatype AttributeValue = AttributeValue(tag: string, inner: Value)

  /** A user item as a DynamoDB stream record carries it. */
  type DynamoItem = map<string, AttributeValue>

  /** A search document: attribute name to unwrapped value. */
  type Doc = map<string, Value>

  /** The attributes copied into the search index, in the order the client lists them. */
  const INDEXED_KEYS: seq<string> :=
    ["phoneNumber", "privacyStatus", "userId", "email", "username", "fullName", "bio"]

  const USER_ID: string := "userId"

  datatype Client = Client(region: string, domain: string)

  /** The document request a hook sends. */
  datatype Request = PutDoc(url: string, doc: Doc) | DeleteDoc(url: string)

  /** Python truthiness of an optional string setting: present and non-empty. */
  predicate Truthy(setting: Option<string>)
  {
    setting.Some? && setting.value != ""
  }

  /**
   `ESSearchClient.__init__`: both the region and the domain must be given
   and non-empty; the region is checked first.
   */
  function NewClient(region: Option<string>, domain: Option<string>): (r: Result<Client, PyError>)
    ensures r.Ok? <==> Truthy(region) && Truthy(domain)
    ensures r.Ok? ==> r.value.region == region.value && r.value.domain == domain.value
    ensures r.Err? ==> r.error.AssertionError?
    ensures !Truthy(region) ==> r == Err(AssertionError("`region` is required"))
    ensures Truthy(region) && !Truthy(domain) ==> r == Err(AssertionError("`domain` is required"))
  {
    if !Truthy(region) then Err(AssertionError("`region` is required"))
    else if !Truthy(domain) then Err(AssertionError("`domain` is required"))
    else Ok(Client(region.value, domain.value))
  }

  /** Python's `str()` of an inner value, as an f-string formats it. */
  function FormatValue(v: Value): string
  {
    match v
    case Str(s) => s
    case Bool(b) => if b then "True" else "False"
  }

  function UserUrlPrefix(client: Client): string
  {
    "https://" + client.domain + "/users/_doc/"
  }

  /** Recovers the user id from a document URL of this client's domain. */
  function UserIdFromUrl(client: Client, url: string): Option<string>
  {
    var prefix := UserUrlPrefix(client);
    if StartsWith(url, prefix) then Some(url[|prefix|..]) else None
  }

  /** `build_user_url`: the document URL of a user, from which the id can be read back. */
  function BuildUserUrl(client: Client, userId: string): (url: string)
    ensures StartsWith(url, "https://")
    ensures UserIdFromUrl(client, url) == Some(userId)
  {
    var url := UserUrlPrefix(client) + userId;
    assert url[..|UserUrlPrefix(client)|] == UserUrlPrefix(client);
    assert url[..|"https://"|] == "https://";
    url
  }

  /** Different users of one client get different document URLs. */
  lemma UserUrlInjective(client: Client, u: string, v: string)
    requires BuildUserUrl(client, u) == BuildUserUrl(client, v)
    ensures u == v
  {
    assert UserIdFromUrl(client, BuildUserUrl(client, u)) == Some(u);
  }

  /** The indexed attribute names as a set. */
  function IndexedKeys(): set<string>
  {
    set k | k in INDEXED_KEYS
  }

  /**
   `build_user_doc`: keeps exactly the indexed attributes the item has,
   each unwrapped from its type tag; every other attribute is dropped.
   */
  function BuildUserDoc(item: DynamoItem): (doc: Doc)
    ensures doc.Keys == IndexedKeys() * item.Keys
    ensures forall k :: k in doc ==> doc[k] == item[k].inner
  {
    map k | k in INDEXED_KEYS && k in item :: item[k].inner
  }

  /** Two items carry the same indexed information. */
  predicate AgreeOnIndexed(a: DynamoItem, b: DynamoItem)
  {
    forall k :: k in IndexedKeys() ==>
      && (k in a <==> k in b)
      && (k in a ==> a[k].inner == b[k].inner)
  }

  /**
   The projection forgets exactly the non-indexed attributes and the type
   tags: two items project to the same document if and only if they agree
   on the indexed values.
   */
  lemma {:induction false} DocsEqualIffAgree(a: DynamoItem, b: DynamoItem)
    ensures BuildUserDoc(a) == BuildUserDoc(b) <==> AgreeOnIndexed(a, b)
  {
    var da, db := BuildUserDoc(a), BuildUserDoc(b);
    if da == db {
      forall k | k in IndexedKeys()
        ensures (k in a <==> k in b) && (k in a ==> a[k].inner == b[k].inner)
      {
        assert k in da <==> k in a;
        assert k in db <==> k in b;
      }
    }
    if AgreeOnIndexed(a, b) {
      assert da.Keys == db.Keys;
      forall k | k in da
        ensures da[k] == db[k]
      {
        assert k in IndexedKeys();
      }
    }
  }

  /**
   `add_user`: puts the projected document at the URL of the item's
   `userId`; an item without `userId` raises a KeyError.
   */
  function AddUser(client: Client, newItem: DynamoItem): (r: Result<Request, PyError>)
    ensures r.Err? <==> USER_ID !in newItem
    ensures r.Err? ==> r.error == KeyError(USER_ID)
    ensures r.Ok? ==> r.value.PutDoc? && r.value.doc == BuildUserDoc(newItem)
    ensures r.Ok? ==> UserIdFromUrl(client, r.value.url) == Some(FormatValue(newItem[USER_ID].inner))
  {
    var doc := BuildUserDoc(newItem);
    if USER_ID !in doc then Err(KeyError(USER_ID))
    else Ok(PutDoc(BuildUserUrl(client, FormatValue(doc[USER_ID])), doc))
  }

  /**
   `update_user`: both items must have the same `userId` (a KeyError when
   either lacks it, an AssertionError when they differ). No request is sent
   when the two projections are equal; otherwise the new document is put at
   the URL of the old document's `userId`.
   */
  function UpdateUser(client: Client, oldItem: DynamoItem, newItem: DynamoItem): (r: Result<Option<Request>, PyError>)
    ensures r.Err? <==> USER_ID !in oldItem || USER_ID !in newItem || oldItem[USER_ID] != newItem[USER_ID]
    ensures (USER_ID !in oldItem || USER_ID !in newItem) ==> r == Err(KeyError(USER_ID))
    ensures USER_ID in oldItem && USER_ID in newItem && oldItem[USER_ID] != newItem[USER_ID] ==>
      r == Err(AssertionError(""))
    ensures r == Ok(None) <==> r.Ok? && AgreeOnIndexed(oldItem, newItem)
    ensures r.Ok? && r.value.Some? ==>
      && r.value.value.PutDoc?
      && r.value.value.doc == BuildUserDoc(newItem)
      && UserIdFromUrl(client, r.value.value.url) == Some(FormatValue(oldItem[USER_ID].inner))
  {
    if USER_ID !in oldItem || USER_ID !in newItem then Err(KeyError(USER_ID))
    else if oldItem[USER_ID] != newItem[USER_ID] then Err(AssertionError(""))
    else
      var oldDoc, newDoc := BuildUserDoc(oldItem), BuildUserDoc(newItem);
      DocsEqualIffAgree(oldItem, newItem);
      if oldDoc == newDoc then Ok(None)
      else Ok(Some(PutDoc(BuildUserUrl(client, FormatValue(oldDoc[USER_ID])), newDoc)))
  }

  /**
   `delete_user`: deletes the document at the URL of the item's `userId`;
   an item without `userId` raises a KeyError.
   */
  function DeleteUser(client: Client, oldItem: DynamoItem): (r: Result<Request, PyError>)
    ensures r.Err? <==> USER_ID !in oldItem
    ensures r.Err? ==> r.error == KeyError(USER_ID)
    ensures r.Ok? ==> r.value.DeleteDoc?
    ensures r.Ok? ==> UserIdFromUrl(client, r.value.url) == Some(FormatValue(oldItem[USER_ID].inner))
  {
    var doc := BuildUserDoc(oldItem);
    if USER_ID !in doc then Err(KeyError(USER_ID))
    else Ok(DeleteDoc(BuildUserUrl(client, FormatValue(doc[USER_ID]))))
  }

  /**
   Changing an attribute that is not indexed (a profile photo, a counter)
   never reaches the search index.
   */
  lemma UnindexedChangeSkipsWrite(client: Client, item: DynamoItem, name: string, v: AttributeValue)
    requires USER_ID in item
    requires name !in IndexedKeys()
    ensures UpdateUser(client, item, item[name := v]) == Ok(None)
  {
  }

  /**
   Changing an indexed attribute's value does reach the index, and the new
   document is written over the one the add created for the same user.
   */
  lemma IndexedChangeOverwritesAddedDoc(client: Client, item: DynamoItem, name: string, v: AttributeValue)
    requires USER_ID in item && name != USER_ID
    requires name in IndexedKeys()
    requires name !in item || item[name].inner != v.inner
    ensures var newItem := item[name := v];
      var r := UpdateUser(client, item, newItem);
      && r.Ok? && r.value.Some?
      && r.value.value.url == AddUser(client, item).value.url
      && r.value.value.url == DeleteUser(client, newItem).value.url
      && r.value.value.doc == AddUser(client, newItem).value.doc
  {
    var newItem := item[name := v];
    assert !AgreeOnIndexed(item, newItem) by {
      assert name in IndexedKeys();
    }
  }
}
