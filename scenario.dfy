/**
 * A client session, checked against the handlers' contracts alone: two
 * users, a direct chat between them, one message from a member, one
 * refused from an outsider, and the chat's history.
 */
module Scenario {
  import opened Wrappers
  import opened ObjectIds
  import opened Tables
  import opened Api

  method DirectChatSession(idA: ObjectId, idB: ObjectId, idChat: ObjectId, idMsg: ObjectId, idMsg2: ObjectId)
    requires idA != idB
  {
    var store := new Store();
    var a := store.CreateUser(UserPayload("A"), idA, 1);
    var b := store.CreateUser(UserPayload("B"), idB, 2);
    assert a.Ok? && b.Ok?;

    var userA, userB := OidStr(idA), OidStr(idB);
    var chat := store.CreateChat(ChatPayload([userA, userB]), idChat, 3);
    assert chat == Ok(ServedDoc(idChat, ChatFields(Chat([userA, userB], None, false, 3, 3))));
    var chatId := OidStr(idChat);
    ChatOfServedId(store.chats, idChat);
    Exchange(store, userA, userB, idChat, idMsg, idMsg2);
  }

  /** The chat's members talk; an outsider is refused; the history shows the one message. */
  method Exchange(store: Store, userA: string, userB: string, idChat: ObjectId, idMsg: ObjectId, idMsg2: ObjectId)
    requires store.Valid() && store.chats == [Entry(idChat, Chat([userA, userB], None, false, 3, 3))]
    requires store.messages == [] && userA != "unknown" && userB != "unknown"
    modifies store
  {
    var chatId := OidStr(idChat);
    ChatOfServedId(store.chats, idChat);

    var sent := store.SendMessage(MessagePayload(chatId, userA, "hi"), idMsg, 4);
    assert sent == Ok(ServedDoc(idMsg, MessageFields(Message(chatId, userA, "hi", "text", 4, 4))));
    assert store.chats == [Entry(idChat, Chat([userA, userB], None, false, 3, 4))];

    var refused := store.SendMessage(MessagePayload(chatId, "unknown", "hello"), idMsg2, 5);
    assert refused == Err(SenderNotInChat);

    var history := ListedMessages(store.messages, chatId);
    assert store.messages == [Entry(idMsg, Message(chatId, userA, "hi", "text", 4, 4))];
    assert |history| == 1 && history[0].rec.content == "hi";
  }
}
