/**
 * The VibeChat handlers for users, chats and messages, over an in-memory
 * model of the document store's three collections.
 *
 * Listing handlers are functions of the collections' contents; the
 * handlers that write are methods of `Store`. The store's fresh id and
 * clock reading are parameters of those methods.
 */
module Api {
  import opened Wrappers
  import opened ObjectIds
  import opened Documents
  import opened Sorting
  import opened Tables

  const DefaultStatus: string := "Hey there! I am using VibeChat"

  // ---------- Request bodies, with their declared defaults ----------

  datatype UserPayload = UserPayload(name: string, avatar: Option<string> := None, status: Option<string> := Some(DefaultStatus))

  datatype ChatPayload = ChatPayload(participants: seq<string>, title: Option<string> := None, isGroup: bool := false)

  /** `kind` stands for the body's `type` field. */
  datatype MessagePayload = MessagePayload(chatId: string, senderId: string, content: string, kind: string := "text")

  // ---------- Stored records ----------

  datatype User = User(name: string, avatar: Option<string>, status: Option<string>, createdAt: int, updatedAt: int)

  datatype Chat = Chat(participants: seq<string>, title: Option<string>, isGroup: bool, createdAt: int, updatedAt: int)

  datatype Message = Message(chatId: string, senderId: string, content: string, kind: string, createdAt: int, updatedAt: int)

  /** What a handler raises: an HTTP error, or an exception from the id parser or the store (a 500). */
  datatype Error =
    | HttpException(statusCode: int, detail: string)
    | InvalidId(text: string)
    | DuplicateKey(id: ObjectId)

  const DirectChatNeedsTwo: Error := HttpException(400, "A direct chat requires 2 participants")
  const ChatNotFound: Error := HttpException(404, "Chat not found")
  const SenderNotInChat: Error := HttpException(403, "Sender not part of this chat")

  // ---------- create_document: the body's fields plus both timestamps ----------

  /** The stored user: the body's name, avatar and status, created and updated now. */
  function NewUser(p: UserPayload, now: int): User {
    User(p.name, p.avatar, p.status, now, now)
  }

  /** The stored chat: the body's participants, title and group flag, created and updated now. */
  function NewChat(p: ChatPayload, now: int): Chat {
    Chat(p.participants, p.title, p.isGroup, now, now)
  }

  /** The stored message: the body's four fields, created and updated now. */
  function NewMessage(p: MessagePayload, now: int): Message {
    Message(p.chatId, p.senderId, p.content, p.kind, now, now)
  }

  function StrArray(xs: seq<string>): Value {
    Array(seq(|xs|, i requires 0 <= i < |xs| => Str(xs[i])))
  }

  // ---------- Records as documents ----------

  function OptStr(o: Option<string>): Value {
    match o
    case None => Null
    case Some(s) => Str(s)
  }

  /** The fields of a record carry no id key and no ObjectId value. */
  predicate PlainFields(fields: Doc) {
    && WellFormed(fields)
    && "_id" !in KeySet(fields) && "id" !in KeySet(fields)
    && forall i :: 0 <= i < |fields| ==> !fields[i].1.Oid?
  }

  function UserFields(u: User): (fields: Doc)
    ensures PlainFields(fields)
  {
    [("name", Str(u.name)), ("avatar", OptStr(u.avatar)), ("status", OptStr(u.status)),
     ("created_at", Int(u.createdAt)), ("updated_at", Int(u.updatedAt))]
  }

  function ChatFields(c: Chat): (fields: Doc)
    ensures PlainFields(fields)
  {
    [("participants", StrArray(c.participants)),
     ("title", OptStr(c.title)), ("is_group", Bool(c.isGroup)),
     ("created_at", Int(c.createdAt)), ("updated_at", Int(c.updatedAt))]
  }

  function MessageFields(m: Message): (fields: Doc)
    ensures PlainFields(fields)
  {
    [("chat_id", Str(m.chatId)), ("sender_id", Str(m.senderId)), ("content", Str(m.content)),
     ("type", Str(m.kind)), ("created_at", Int(m.createdAt)), ("updated_at", Int(m.updatedAt))]
  }

  /** The stored user document holds the body's fields and both timestamps set to now. */
  lemma NewUserFields(p: UserPayload, now: int)
    ensures var f := UserFields(NewUser(p, now));
      && Get(f, "name") == Some(Str(p.name))
      && Get(f, "avatar") == Some(OptStr(p.avatar))
      && Get(f, "status") == Some(OptStr(p.status))
      && Get(f, "created_at") == Some(Int(now)) && Get(f, "updated_at") == Some(Int(now))
  {
    var f := UserFields(NewUser(p, now));
    GetAt(f, 0); GetAt(f, 1); GetAt(f, 2); GetAt(f, 3); GetAt(f, 4);
  }

  /** The stored chat document holds the body's fields and both timestamps set to now. */
  lemma NewChatFields(p: ChatPayload, now: int)
    ensures var f := ChatFields(NewChat(p, now));
      && Get(f, "participants") == Some(StrArray(p.participants))
      && Get(f, "title") == Some(OptStr(p.title))
      && Get(f, "is_group") == Some(Bool(p.isGroup))
      && Get(f, "created_at") == Some(Int(now)) && Get(f, "updated_at") == Some(Int(now))
  {
    var f := ChatFields(NewChat(p, now));
    GetAt(f, 0); GetAt(f, 1); GetAt(f, 2); GetAt(f, 3); GetAt(f, 4);
  }

  /** The stored message document holds the body's fields and both timestamps set to now. */
  lemma NewMessageFields(p: MessagePayload, now: int)
    ensures var f := MessageFields(NewMessage(p, now));
      && Get(f, "chat_id") == Some(Str(p.chatId)) && Get(f, "sender_id") == Some(Str(p.senderId))
      && Get(f, "content") == Some(Str(p.content)) && Get(f, "type") == Some(Str(p.kind))
      && Get(f, "created_at") == Some(Int(now)) && Get(f, "updated_at") == Some(Int(now))
  {
    var f := MessageFields(NewMessage(p, now));
    GetAt(f, 0); GetAt(f, 1); GetAt(f, 2); GetAt(f, 3); GetAt(f, 4); GetAt(f, 5);
  }

  /** A record as `find_one` returns it: the store puts `_id` first. */
  function StoredDoc(id: ObjectId, fields: Doc): (d: Doc)
    ensures Get(d, "_id") == Some(Oid(id))
    ensures KeySet(d) == {"_id"} + KeySet(fields)
  {
    KeySetCons(("_id", Oid(id)), fields);
    [("_id", Oid(id))] + fields
  }

  /** A record as a client receives it. */
  function ServedDoc(id: ObjectId, fields: Doc): Doc {
    [("id", Str(OidStr(id)))] + fields
  }

  lemma StoredWellFormed(id: ObjectId, fields: Doc)
    requires PlainFields(fields)
    ensures WellFormed(StoredDoc(id, fields))
    ensures KeySet(StoredDoc(id, fields)) == {"_id"} + KeySet(fields)
  {
    var d := StoredDoc(id, fields);
    assert forall i :: 1 <= i < |d| ==> d[i] == fields[i - 1];
    assert forall i :: 0 <= i < |fields| ==> fields[i] in fields;
    assert KeySet(d) == {"_id"} + KeySet(fields) by {
      assert d == [d[0]] + fields;
    }
  }

  /** serialize turns a stored record into the served one. */
  lemma ServeStored(id: ObjectId, fields: Doc)
    requires PlainFields(fields)
    ensures Serialized(Some(StoredDoc(id, fields))) == Some(ServedDoc(id, fields))
  {
    var d := StoredDoc(id, fields);
    StoredWellFormed(id, fields);
    SerializeInOrder(d);
    RenamedStored(id, fields);
    assert d != [];
    assert Serialized(Some(d)) == Some(SerializeItems(d));
  }

  lemma RenamedStored(id: ObjectId, fields: Doc)
    requires PlainFields(fields)
    ensures Renamed(StoredDoc(id, fields)) == ServedDoc(id, fields)
  {
    var d := StoredDoc(id, fields);
    var want := ServedDoc(id, fields);
    var got := Renamed(d);
    assert |got| == |want|;
    forall i | 0 <= i < |d| ensures got[i] == want[i] {
      if i > 0 {
        assert d[i] == fields[i - 1] && want[i] == fields[i - 1];
        assert !fields[i - 1].1.Oid?;
        assert fields[i - 1] in fields;
        assert fields[i - 1].0 != "_id";
      }
    }
  }

  /** The `serialize(find_one(...))` step of every handler: how a stored record is served. */
  function Serve(id: ObjectId, fields: Doc): (d: Doc)
    requires PlainFields(fields)
    ensures d == ServedDoc(id, fields)
  {
    ServeStored(id, fields);
    Serialized(Some(StoredDoc(id, fields))).value
  }

  /** A served record has a string `id` and no `_id`. */
  lemma ServedHasId(id: ObjectId, fields: Doc)
    requires PlainFields(fields)
    ensures Get(ServedDoc(id, fields), "id") == Some(Str(OidStr(id)))
    ensures "_id" !in KeySet(ServedDoc(id, fields))
  {
    assert KeySet(ServedDoc(id, fields)) == {"id"} + KeySet(fields);
  }

  // ---------- list_users ----------

  /**
   * The users `list_users` fetches: every user when q is absent or empty,
   * otherwise those whose name the store's case-insensitive regex
   * `matches(q, name)` accepts.
   */
  function UsersMatching(users: Table<User>, q: Option<string>, matches: (string, string) -> bool): (r: Table<User>)
    ensures q == None || q == Some("") ==> r == users
    ensures q.Some? && q.value != "" ==> forall e :: e in r <==> e in users && matches(q.value, e.rec.name)
  {
    if q.None? || q.value == "" then users
    else
      var pattern := q.value;
      Where(users, (u: User) => matches(pattern, u.name))
  }

  function ListUsers(users: Table<User>, q: Option<string>, matches: (string, string) -> bool): (r: seq<Doc>)
    ensures var found := UsersMatching(users, q, matches);
      |r| == |found| && forall i :: 0 <= i < |r| ==> r[i] == ServedDoc(found[i].id, UserFields(found[i].rec))
    ensures q == None || q == Some("") ==>
      |r| == |users| && forall i :: 0 <= i < |r| ==> r[i] == ServedDoc(users[i].id, UserFields(users[i].rec))
  {
    var found := UsersMatching(users, q, matches);
    seq(|found|, i requires 0 <= i < |found| =>
      Serve(found[i].id, UserFields(found[i].rec)))
  }

  // ---------- list_chats ----------

  /** The sort key of list_chats: `updated_at`. */
  function ChatActivity(e: Entry<Chat>): int {
    e.rec.updatedAt
  }

  /** The chat query of list_chats: the chats whose participants contain the user. */
  function ChatsWith(chats: Table<Chat>, userId: string): (r: Table<Chat>)
    ensures forall e :: e in r <==> e in chats && userId in e.rec.participants
  {
    Where(chats, HasParticipant(userId))
  }

  function HasParticipant(userId: string): Chat -> bool {
    (c: Chat) => userId in c.participants
  }

  /** The chats list_chats returns, before serialize: newest activity first. */
  function ListedChats(chats: Table<Chat>, userId: string): (r: Table<Chat>)
    ensures forall e :: e in r <==> e in chats && userId in e.rec.participants
    ensures multiset(r) == multiset(ChatsWith(chats, userId))
    ensures forall i, j :: 0 <= i < j < |r| ==> r[i].rec.updatedAt >= r[j].rec.updatedAt
    ensures forall k :: WithKey(r, ChatActivity, k) == WithKey(ChatsWith(chats, userId), ChatActivity, k)
  {
    var found := ChatsWith(chats, userId);
    var r := SortByKey(found, ChatActivity, true);
    SortSorted(found, ChatActivity, true);
    SortStableAll(found, ChatActivity, true);
    assert forall e :: e in r <==> e in found by {
      forall e ensures e in r <==> e in found {
        assert e in r <==> e in multiset(r);
      }
    }
    r
  }

  function ListChats(chats: Table<Chat>, userId: string): (r: seq<Doc>)
    ensures var listed := ListedChats(chats, userId);
      |r| == |listed| && forall i :: 0 <= i < |r| ==> r[i] == ServedDoc(listed[i].id, ChatFields(listed[i].rec))
  {
    var listed := ListedChats(chats, userId);
    seq(|listed|, i requires 0 <= i < |listed| =>
      Serve(listed[i].id, ChatFields(listed[i].rec)))
  }

  // ---------- list_messages ----------

  /** The sort key of list_messages: `created_at`. */
  function MessageTime(e: Entry<Message>): int {
    e.rec.createdAt
  }

  /** The message query of list_messages: the messages whose `chat_id` is the given text. */
  function MessagesIn(messages: Table<Message>, chatId: string): (r: Table<Message>)
    ensures forall e :: e in r <==> e in messages && e.rec.chatId == chatId
  {
    Where(messages, InChat(chatId))
  }

  function InChat(chatId: string): Message -> bool {
    (m: Message) => m.chatId == chatId
  }

  /** The messages list_messages returns, before serialize: oldest first. */
  function ListedMessages(messages: Table<Message>, chatId: string): (r: Table<Message>)
    ensures forall e :: e in r <==> e in messages && e.rec.chatId == chatId
    ensures multiset(r) == multiset(MessagesIn(messages, chatId))
    ensures forall i, j :: 0 <= i < j < |r| ==> r[i].rec.createdAt <= r[j].rec.createdAt
    ensures forall k :: WithKey(r, MessageTime, k) == WithKey(MessagesIn(messages, chatId), MessageTime, k)
  {
    var found := MessagesIn(messages, chatId);
    var r := SortByKey(found, MessageTime, false);
    SortSorted(found, MessageTime, false);
    SortStableAll(found, MessageTime, false);
    assert forall e :: e in r <==> e in found by {
      forall e ensures e in r <==> e in found {
        assert e in r <==> e in multiset(r);
      }
    }
    r
  }

  function ListMessages(messages: Table<Message>, chatId: string): (r: seq<Doc>)
    ensures var listed := ListedMessages(messages, chatId);
      |r| == |listed| && forall i :: 0 <= i < |r| ==> r[i] == ServedDoc(listed[i].id, MessageFields(listed[i].rec))
  {
    var listed := ListedMessages(messages, chatId);
    seq(|listed|, i requires 0 <= i < |listed| =>
      Serve(listed[i].id, MessageFields(listed[i].rec)))
  }

  // ---------- What listing shows after a send ----------

  lemma MessagesInAppend(messages: Table<Message>, e: Entry<Message>, c: string)
    ensures MessagesIn(messages + [e], c) == MessagesIn(messages, c) + (if e.rec.chatId == c then [e] else [])
  {
    WhereAppend(messages, e, InChat(c));
  }

  /**
   * A new message joins its chat's history and no other: the history gains
   * exactly that entry, and every other chat's history is as before.
   */
  lemma SentMessageListed(messages: Table<Message>, e: Entry<Message>)
    ensures multiset(ListedMessages(messages + [e], e.rec.chatId)) ==
            multiset(ListedMessages(messages, e.rec.chatId)) + multiset{e}
    ensures forall c :: c != e.rec.chatId ==> ListedMessages(messages + [e], c) == ListedMessages(messages, c)
  {
    var before := MessagesIn(messages, e.rec.chatId);
    MessagesInAppend(messages, e, e.rec.chatId);
    assert multiset(before + [e]) == multiset(before) + multiset{e};
    forall c | c != e.rec.chatId ensures ListedMessages(messages + [e], c) == ListedMessages(messages, c) {
      MessagesInAppend(messages, e, c);
      assert MessagesIn(messages + [e], c) == MessagesIn(messages, c);
    }
  }

  /** A message no older than the rest of its chat is listed last in the chat's history. */
  lemma NewestMessageListedLast(messages: Table<Message>, e: Entry<Message>)
    requires forall i :: 0 <= i < |messages| && messages[i].rec.chatId == e.rec.chatId ==>
      messages[i].rec.createdAt <= e.rec.createdAt
    ensures var r := ListedMessages(messages + [e], e.rec.chatId); r != [] && r[|r| - 1] == e
  {
    var found := MessagesIn(messages, e.rec.chatId) + [e];
    MessagesInAppend(messages, e, e.rec.chatId);
    forall i | 0 <= i < |found| ensures MessageTime(found[i]) <= MessageTime(e) {
      if i < |found| - 1 {
        assert found[i] in MessagesIn(messages, e.rec.chatId);
        var k :| 0 <= k < |messages| && messages[k] == found[i];
      }
    }
    SortKeepsNewestLast(found, MessageTime);
  }

  /**
   * After a send bumps a chat's `updated_at` to t, every participant's chat
   * list shows that chat with activity t; when no chat was more recent than
   * t, the list starts with activity t.
   */
  lemma TouchedChatListed(chats: Table<Chat>, cid: ObjectId, c: Chat, t: int, u: string)
    requires Find(chats, cid) == Some(c) && u in c.participants
    ensures Entry(cid, c.(updatedAt := t)) in ListedChats(Replace(chats, cid, c.(updatedAt := t)), u)
    ensures (forall i :: 0 <= i < |chats| ==> chats[i].rec.updatedAt <= t) ==>
      ListedChats(Replace(chats, cid, c.(updatedAt := t)), u)[0].rec.updatedAt == t
  {
    var touched := Entry(cid, c.(updatedAt := t));
    var chats2 := Replace(chats, cid, c.(updatedAt := t));
    var found := ChatsWith(chats2, u);
    assert touched in found;
    if forall i :: 0 <= i < |chats| ==> chats[i].rec.updatedAt <= t {
      forall i | 0 <= i < |found| ensures ChatActivity(found[i]) <= ChatActivity(touched) {
        assert found[i] in chats2;
        var k :| 0 <= k < |chats2| && chats2[k] == found[i];
        assert chats2[k] == chats[k] || chats2[k] == touched;
      }
      SortStartsWithLargest(found, ChatActivity, touched);
    }
  }

  // ---------- What send_message checks ----------

  /** The chat an id text names: none when the text is not an id or no chat has that id. */
  function ChatOf(chats: Table<Chat>, text: string): Option<Chat>
  {
    match ParseOid(text)
    case None => None
    case Some(cid) => Find(chats, cid)
  }

  /** The id string a created chat is served with names that chat when a message is sent to it. */
  lemma ChatOfServedId(chats: Table<Chat>, o: ObjectId)
    ensures ChatOf(chats, OidStr(o)) == Find(chats, o)
  {
    ParseOidStr(o);
  }

  /** The chat named by chatId exists and has senderId among its participants. */
  predicate MaySend(chats: Table<Chat>, chatId: string, senderId: string)
    ensures MaySend(chats, chatId, senderId) ==> ParseOid(chatId).Some? && ParseOid(chatId).value in Ids(chats)
  {
    ChatOf(chats, chatId).Some? && senderId in ChatOf(chats, chatId).value.participants
  }

  /** Every stored message passed the send-time checks against the chats as they are now. */
  predicate MessagesPosted(chats: Table<Chat>, messages: Table<Message>) {
    forall i :: 0 <= i < |messages| ==> MaySend(chats, messages[i].rec.chatId, messages[i].rec.senderId)
  }

  /** chats2 has every chat of chats, under the same id and with the same participants. */
  ghost predicate KeepsParticipants(chats: Table<Chat>, chats2: Table<Chat>) {
    forall id :: Find(chats, id).Some? ==>
      Find(chats2, id).Some? && Find(chats2, id).value.participants == Find(chats, id).value.participants
  }

  /** Neither inserting a chat nor bumping a chat's `updated_at` invalidates a stored message. */
  lemma PostedKept(chats: Table<Chat>, chats2: Table<Chat>, messages: Table<Message>)
    requires MessagesPosted(chats, messages) && KeepsParticipants(chats, chats2)
    ensures MessagesPosted(chats2, messages)
  {
    forall i | 0 <= i < |messages| ensures MaySend(chats2, messages[i].rec.chatId, messages[i].rec.senderId) {
      var cid := ParseOid(messages[i].rec.chatId).value;
      assert Find(chats, cid).Some?;
    }
  }

  // ---------- The store and the handlers that write to it ----------

  class Store {
    var users: Table<User>
    var chats: Table<Chat>
    var messages: Table<Message>

    ghost predicate Valid()
      reads this
    {
      && UniqueIds(users) && UniqueIds(chats) && UniqueIds(messages)
      && MessagesPosted(chats, messages)
    }

    constructor ()
      ensures Valid()
      ensures users == [] && chats == [] && messages == []
    {
      users, chats, messages := [], [], [];
    }

    // ---------- The persistence gateway ----------

    /** `create_document("user", ...)`: insert_one under the driver's id, which must be fresh; returns the id string. */
    method InsertUser(oid: ObjectId, u: User) returns (r: Result<string, Error>)
      requires Valid()
      modifies this
      ensures Valid()
      ensures chats == old(chats) && messages == old(messages)
      ensures oid in Ids(old(users)) ==> r == Err(DuplicateKey(oid)) && users == old(users)
      ensures oid !in Ids(old(users)) ==> r == Ok(OidStr(oid)) && users == old(users) + [Entry(oid, u)]
      ensures r.Ok? ==> Find(users, oid) == Some(u)
    {
      if oid in Ids(users) {
        return Err(DuplicateKey(oid));
      }
      AppendUnique(users, Entry(oid, u));
      FindAppend(users, Entry(oid, u), oid);
      users := users + [Entry(oid, u)];
      r := Ok(OidStr(oid));
    }

    /** `create_document("chat", ...)`. */
    method InsertChat(oid: ObjectId, c: Chat) returns (r: Result<string, Error>)
      requires Valid()
      modifies this
      ensures Valid()
      ensures users == old(users) && messages == old(messages)
      ensures oid in Ids(old(chats)) ==> r == Err(DuplicateKey(oid)) && chats == old(chats)
      ensures oid !in Ids(old(chats)) ==> r == Ok(OidStr(oid)) && chats == old(chats) + [Entry(oid, c)]
      ensures r.Ok? ==> Find(chats, oid) == Some(c)
    {
      if oid in Ids(chats) {
        return Err(DuplicateKey(oid));
      }
      var entry := Entry(oid, c);
      AppendUnique(chats, entry);
      forall id ensures Find(chats + [entry], id) == if id in Ids(chats) then Find(chats, id) else if id == oid then Some(c) else None {
        FindAppend(chats, entry, id);
      }
      PostedKept(chats, chats + [entry], messages);
      chats := chats + [entry];
      r := Ok(OidStr(oid));
    }

    /** `create_document("message", ...)`, for a message that passed the send-time checks. */
    method InsertMessage(oid: ObjectId, m: Message) returns (r: Result<string, Error>)
      requires Valid() && MaySend(chats, m.chatId, m.senderId)
      modifies this
      ensures Valid()
      ensures users == old(users) && chats == old(chats)
      ensures oid in Ids(old(messages)) ==> r == Err(DuplicateKey(oid)) && messages == old(messages)
      ensures oid !in Ids(old(messages)) ==> r == Ok(OidStr(oid)) && messages == old(messages) + [Entry(oid, m)]
      ensures r.Ok? ==> Find(messages, oid) == Some(m)
    {
      if oid in Ids(messages) {
        return Err(DuplicateKey(oid));
      }
      var entry := Entry(oid, m);
      AppendUnique(messages, entry);
      FindAppend(messages, entry, oid);
      var all := messages + [entry];
      forall i | 0 <= i < |all| ensures MaySend(chats, all[i].rec.chatId, all[i].rec.senderId) {
        if i < |messages| {
          assert all[i] == messages[i];
        }
      }
      messages := all;
      r := Ok(OidStr(oid));
    }

    /** `update_one({"_id": cid}, {"$set": {"updated_at": t}})` on the chats. */
    method SetChatUpdatedAt(cid: ObjectId, t: int)
      requires Valid()
      modifies this
      ensures Valid()
      ensures users == old(users) && messages == old(messages)
      ensures chats == match Find(old(chats), cid)
        case None => old(chats)
        case Some(c) => Replace(old(chats), cid, c.(updatedAt := t))
    {
      var chat := Find(chats, cid);
      if chat.Some? {
        var chats2 := Replace(chats, cid, chat.value.(updatedAt := t));
        assert KeepsParticipants(chats, chats2);
        PostedKept(chats, chats2, messages);
        chats := chats2;
      }
    }

    // ---------- The handlers ----------

    /** `create_user`: insert the body, then serve the inserted record. */
    method CreateUser(payload: UserPayload, oid: ObjectId, now: int) returns (r: Result<Doc, Error>)
      requires Valid()
      modifies this
      ensures Valid()
      ensures chats == old(chats) && messages == old(messages)
      ensures oid in Ids(old(users)) ==> r == Err(DuplicateKey(oid)) && users == old(users)
      ensures oid !in Ids(old(users)) ==>
        && users == old(users) + [Entry(oid, NewUser(payload, now))]
        && r == Ok(ServedDoc(oid, UserFields(NewUser(payload, now))))
      ensures r.Ok? ==> Get(r.value, "id") == Some(Str(OidStr(oid))) && "_id" !in KeySet(r.value)
    {
      var userId := InsertUser(oid, NewUser(payload, now));
      if userId.Err? {
        return Err(userId.error);
      }
      // Look the new user up by the id string the insert returned.
      ParseOidStr(oid);
      var found := Find(users, ParseOid(userId.value).value);
      var doc := Serialize(Some(StoredDoc(oid, UserFields(found.value))));
      ServedHasId(oid, UserFields(found.value));
      r := Ok(Serve(oid, UserFields(found.value)));
      assert doc.value == r.value;
    }

    /** `create_chat`: a direct chat needs two participants; a group chat needs none. */
    method CreateChat(payload: ChatPayload, oid: ObjectId, now: int) returns (r: Result<Doc, Error>)
      requires Valid()
      modifies this
      ensures Valid()
      ensures users == old(users) && messages == old(messages)
      ensures |payload.participants| < 2 && !payload.isGroup ==> r == Err(DirectChatNeedsTwo) && chats == old(chats)
      ensures r == Err(DirectChatNeedsTwo) ==> |payload.participants| < 2 && !payload.isGroup
      ensures (|payload.participants| >= 2 || payload.isGroup) && oid in Ids(old(chats)) ==>
        r == Err(DuplicateKey(oid)) && chats == old(chats)
      ensures (|payload.participants| >= 2 || payload.isGroup) && oid !in Ids(old(chats)) ==>
        && chats == old(chats) + [Entry(oid, NewChat(payload, now))]
        && r == Ok(ServedDoc(oid, ChatFields(NewChat(payload, now))))
    {
      if |payload.participants| < 2 && !payload.isGroup {
        return Err(DirectChatNeedsTwo);
      }
      var chatId := InsertChat(oid, NewChat(payload, now));
      if chatId.Err? {
        return Err(chatId.error);
      }
      // Look the new chat up by the id string the insert returned.
      ParseOidStr(oid);
      var found := Find(chats, ParseOid(chatId.value).value);
      var doc := Serialize(Some(StoredDoc(oid, ChatFields(found.value))));
      r := Ok(Serve(oid, ChatFields(found.value)));
      assert doc.value == r.value;
    }

    /**
     * `send_message`: 404 for an unknown chat, 403 for a sender outside it;
     * otherwise insert the message and set the chat's `updated_at` to the
     * message's `created_at`.
     */
    method SendMessage(payload: MessagePayload, oid: ObjectId, now: int) returns (r: Result<Doc, Error>)
      requires Valid()
      modifies this
      ensures Valid()
      ensures users == old(users)
      ensures ParseOid(payload.chatId).None? ==> r == Err(InvalidId(payload.chatId))
      ensures ParseOid(payload.chatId).Some? && ChatOf(old(chats), payload.chatId).None? ==> r == Err(ChatNotFound)
      ensures ChatOf(old(chats), payload.chatId).Some? && payload.senderId !in ChatOf(old(chats), payload.chatId).value.participants ==>
        r == Err(SenderNotInChat)
      ensures MaySend(old(chats), payload.chatId, payload.senderId) && oid in Ids(old(messages)) ==> r == Err(DuplicateKey(oid))
      ensures r.Err? ==> chats == old(chats) && messages == old(messages)
      ensures r.Ok? <==> MaySend(old(chats), payload.chatId, payload.senderId) && oid !in Ids(old(messages))
      ensures r.Ok? ==>
        var msg := NewMessage(payload, now);
        && messages == old(messages) + [Entry(oid, msg)]
        && chats == Replace(old(chats), ParseOid(payload.chatId).value,
                            ChatOf(old(chats), payload.chatId).value.(updatedAt := msg.createdAt))
        && r.value == ServedDoc(oid, MessageFields(msg))
    {
      // Look the chat up by the id text in the body; text that is not an id raises.
      var chatKey := ParseOid(payload.chatId);
      if chatKey.None? {
        return Err(InvalidId(payload.chatId));
      }
      var chat := Find(chats, chatKey.value);
      if chat.None? {
        return Err(ChatNotFound);
      }
      if payload.senderId !in chat.value.participants {
        return Err(SenderNotInChat);
      }
      var msgId := InsertMessage(oid, NewMessage(payload, now));
      if msgId.Err? {
        return Err(msgId.error);
      }
      // Read back the stored message's creation time and bump the chat to it.
      ParseOidStr(oid);
      var created := Find(messages, ParseOid(msgId.value).value).value.createdAt;
      SetChatUpdatedAt(chatKey.value, created);
      // Serve the stored message.
      var stored := Find(messages, ParseOid(msgId.value).value).value;
      var doc := Serialize(Some(StoredDoc(oid, MessageFields(stored))));
      r := Ok(Serve(oid, MessageFields(stored)));
      assert doc.value == r.value;
    }
  }
}
