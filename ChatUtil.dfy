/**
 * The chat helpers: the collection paths a chat's documents live under, the
 * document a new chat room is created with, and the in-memory scans behind
 * editing and deleting a message (sender-only, five-minute edit window).
 */
module ChatUtil {
  import opened Common

  // ---------------------------------------------------------------------------
  // Collection names
  // ---------------------------------------------------------------------------

  /** `getChatCollectionName`: the collection holding chats of a type; "" for any other type. */
  function ChatCollectionName(chatType: string): (r: string)
    ensures r != "" <==> chatType == ChatTypeGroup || chatType == ChatTypePrivate
    ensures chatType == ChatTypeGroup ==> r == "groupChat"
    ensures chatType == ChatTypePrivate ==> r == "privateChat"
  {
    if chatType == ChatTypeGroup then "groupChat"
    else if chatType == ChatTypePrivate then "privateChat"
    else ""
  }

  /**
   * `getMessagesCollectionName`: the messages sub-collection of a chat, which
   * sits under the chat's own document in the chat's collection.
   */
  function MessagesCollectionName(chatType: string, chatId: string): (r: string)
    ensures ChatCollectionName(chatType) == "" ==> r == ""
    ensures ChatCollectionName(chatType) != "" ==> r == ChatCollectionName(chatType) + "/" + chatId + "/messages"
  {
    if chatType == ChatTypeGroup then "groupChat/" + chatId + "/messages"
    else if chatType == ChatTypePrivate then "privateChat/" + chatId + "/messages"
    else ""
  }

  // ---------------------------------------------------------------------------
  // Chat room creation
  // ---------------------------------------------------------------------------

  const GroupNameDefault := "Your Group"

  /**
   * `createChatRoom` (without the write): null for an unknown type; otherwise
   * the chat with the id the store assigned and the document's fields. A group
   * is created by `user1` with members `user1` and `user2`; a private chat is
   * named after `user2` and pairs `user1` with `user2`.
   */
  function CreateChatRoom(chatType: string, message: string, user1: User, user2: User,
                          now: int, newDocId: string): (r: Option<Chat>)
    ensures r.Some? <==> ChatCollectionName(chatType) != ""
    ensures r.Some? ==> r.value.id == newDocId && r.value.chatType == chatType
    ensures r.Some? ==> r.value.fields.lastMessage == message && r.value.fields.lastMessageAt == now
    ensures r.Some? && chatType == ChatTypeGroup ==>
      r.value.fields.name == GroupNameDefault &&
      r.value.fields.membership == GroupMembers(now, user1.id, [user1.id, user2.id])
    ensures r.Some? && chatType == ChatTypePrivate ==>
      r.value.fields.name == user2.fullname && r.value.fields.membership == PrivatePair(user1.id, user2.id)
  {
    var createdTime := now;
    if chatType == ChatTypeGroup then
      Some(Chat(newDocId, chatType,
                ChatFields(GroupNameDefault, message, createdTime,
                           GroupMembers(createdTime, user1.id, [user1.id, user2.id]))))
    else if chatType == ChatTypePrivate then
      Some(Chat(newDocId, chatType,
                ChatFields(user2.fullname, message, createdTime, PrivatePair(user1.id, user2.id))))
    else None
  }

  /** The document written for a created chat: its fields and its type, without an id. */
  function StoredDocument(chat: Chat): StoredChat {
    StoredChat(None, Some(chat.chatType), chat.fields)
  }

  // ---------------------------------------------------------------------------
  // Messages, edit and delete
  // ---------------------------------------------------------------------------

  /** The edit window: five minutes after `sentAt`, in milliseconds. */
  const EditWindowMs := 5 * 60 * 1000

  /**
   * A message object the client holds; edits change its `text` and `sentAt` in
   * place. A message the client created has a Date as `sentAt`; one read from
   * the store has the store's timestamp.
   */
  class Message {
    const id: string
    const chatId: string
    const senderId: string
    const mediaUrl: string
    const messageType: string
    var text: string
    var sentAt: TimeValue

    constructor (id: string, chatId: string, senderId: string, text: string, sentAt: TimeValue,
                 mediaUrl: string, messageType: string)
      ensures this.id == id && this.chatId == chatId && this.senderId == senderId
      ensures this.text == text && this.sentAt == sentAt
      ensures this.mediaUrl == mediaUrl && this.messageType == messageType
    {
      this.id, this.chatId, this.senderId := id, chatId, senderId;
      this.text, this.sentAt := text, sentAt;
      this.mediaUrl, this.messageType := mediaUrl, messageType;
    }
  }

  /**
   * The message has the target id and was sent by the user. `docID` is the
   * caller's value; `None` stands for a value, such as the number -1, that
   * equals no message id.
   */
  predicate Owned(m: Message, docID: Option<string>, userId: string) {
    docID == Some(m.id) && m.senderId == userId
  }

  /** How many leading positions the loop `i < messages.length - 1` visits. */
  function ScannedCount(n: nat): (r: nat)
    ensures r < n || n == 0
    ensures n > 0 ==> r == n - 1
  {
    if n == 0 then 0 else n - 1
  }

  /** The first owned message at or after `from` among the scanned positions. */
  function FirstOwnedFrom(messages: seq<Message>, docID: Option<string>, userId: string, from: nat): (r: Option<nat>)
    requires from <= ScannedCount(|messages|)
    ensures r.Some? ==> from <= r.value < ScannedCount(|messages|) && Owned(messages[r.value], docID, userId)
    ensures r.Some? ==> forall j :: from <= j < r.value ==> !Owned(messages[j], docID, userId)
    ensures r.None? ==> forall j :: from <= j < ScannedCount(|messages|) ==> !Owned(messages[j], docID, userId)
    decreases ScannedCount(|messages|) - from
  {
    if from == ScannedCount(|messages|) then None
    else if Owned(messages[from], docID, userId) then Some(from)
    else FirstOwnedFrom(messages, docID, userId, from + 1)
  }

  /**
   * The position the edit and delete scans act on: the first scanned position
   * whose message is owned; a wrong sender does not stop the scan, and the last
   * position is never scanned.
   */
  function FirstOwned(messages: seq<Message>, docID: Option<string>, userId: string): (r: Option<nat>)
    ensures r.Some? ==> r.value + 1 < |messages| && Owned(messages[r.value], docID, userId)
    ensures r.Some? ==> forall j :: 0 <= j < r.value ==> !Owned(messages[j], docID, userId)
    ensures r.None? ==> forall j :: 0 <= j < |messages| - 1 ==> !Owned(messages[j], docID, userId)
  {
    FirstOwnedFrom(messages, docID, userId, 0)
  }

  /** A list of at most one message is never acted on. */
  lemma ShortListNeverScanned(messages: seq<Message>, docID: Option<string>, userId: string)
    requires |messages| <= 1
    ensures FirstOwned(messages, docID, userId) == None
  {
  }

  /** An owned message in the last position is never found, whatever comes before it. */
  lemma LastMessageNeverFound(messages: seq<Message>, docID: Option<string>, userId: string)
    requires |messages| >= 1 && Owned(messages[|messages| - 1], docID, userId)
    requires forall j :: 0 <= j < |messages| - 1 ==> !Owned(messages[j], docID, userId)
    ensures FirstOwned(messages, docID, userId) == None
  {
  }

  /** An edit at time `now` is allowed while `now` is at most five minutes after `sentAt`. */
  predicate WithinEditWindow(sentAt: int, now: int) {
    now <= sentAt + EditWindowMs
  }

  /**
   * `updateMessage` (without the write): acts on the first owned message among
   * the scanned positions. Its `sentAt` is read with `getTime`, which only a
   * client Date has: for a store timestamp or a missing value the call throws
   * and the catch returns undefined (`None`), nothing changed. Otherwise, if
   * the edit window is still open, the message gets the new text and a new
   * `sentAt`; every other message is unchanged and the same list is returned.
   */
  method UpdateMessage(newText: string, messages: seq<Message>, docID: Option<string>, userId: string,
                       now: int) returns (updated: Option<seq<Message>>)
    modifies set m | m in messages
    ensures var k := FirstOwned(messages, docID, userId);
      updated == if k.Some? && !old(messages[k.value].sentAt).LocalDate? then None else Some(messages)
    ensures var k := FirstOwned(messages, docID, userId);
      forall m :: m in messages && (k.None? || m != messages[k.value]) ==>
        m.text == old(m.text) && m.sentAt == old(m.sentAt)
    ensures var k := FirstOwned(messages, docID, userId);
      k.Some? && old(messages[k.value].sentAt).LocalDate? &&
      WithinEditWindow(old(messages[k.value].sentAt).millis, now) ==>
        messages[k.value].text == newText && messages[k.value].sentAt == LocalDate(now)
    ensures var k := FirstOwned(messages, docID, userId);
      k.Some? && !(old(messages[k.value].sentAt).LocalDate? &&
                   WithinEditWindow(old(messages[k.value].sentAt).millis, now)) ==>
        messages[k.value].text == old(messages[k.value].text) &&
        messages[k.value].sentAt == old(messages[k.value].sentAt)
  {
    var n := |messages|;
    var i := 0;
    ghost var found: Option<nat> := None;
    while i < n - 1
      invariant 0 <= i <= n
      invariant found.None? ==> i <= ScannedCount(n)
      invariant found.None? ==> forall j :: 0 <= j < i ==> !Owned(messages[j], docID, userId)
      invariant found.None? ==> forall m :: m in messages ==> m.text == old(m.text) && m.sentAt == old(m.sentAt)
      invariant found.Some? ==> i == n && found == FirstOwned(messages, docID, userId)
      invariant found.Some? ==> old(messages[found.value].sentAt).LocalDate?
      invariant found.Some? ==> forall m :: m in messages && m != messages[found.value] ==>
        m.text == old(m.text) && m.sentAt == old(m.sentAt)
      invariant found.Some? && WithinEditWindow(old(messages[found.value].sentAt).millis, now) ==>
        messages[found.value].text == newText && messages[found.value].sentAt == LocalDate(now)
      invariant found.Some? && !WithinEditWindow(old(messages[found.value].sentAt).millis, now) ==>
        messages[found.value].text == old(messages[found.value].text) &&
        messages[found.value].sentAt == old(messages[found.value].sentAt)
    {
      var currentMessage := messages[i];
      if docID == Some(currentMessage.id) && currentMessage.senderId == userId {
        if !currentMessage.sentAt.LocalDate? {
          // `currentMessage.sentAt.getTime()` throws
          assert FirstOwned(messages, docID, userId) == Some(i);
          updated := None;
          return;
        }
        var sentAt := now;
        var expireEditTime := currentMessage.sentAt.millis + EditWindowMs;
        if sentAt <= expireEditTime {
          currentMessage.text := newText;
          currentMessage.sentAt := LocalDate(sentAt);
        }
        found := Some(i);
        i := n - 1;
      }
      i := i + 1;
    }
    updated := Some(messages);
  }

  /**
   * `deleteMessage` (without the write): the first owned message among the
   * scanned positions, or undefined; the list itself is not changed.
   */
  method DeleteMessage(docID: Option<string>, messages: seq<Message>, userId: string)
    returns (deletedMessage: Option<Message>)
    ensures var k := FirstOwned(messages, docID, userId);
      deletedMessage == if k.Some? then Some(messages[k.value]) else None
  {
    deletedMessage := None;
    var n := |messages|;
    var i := 0;
    while i < n - 1
      invariant 0 <= i <= n
      invariant deletedMessage.None? ==> i <= ScannedCount(n)
      invariant deletedMessage.None? ==> forall j :: 0 <= j < i ==> !Owned(messages[j], docID, userId)
      invariant deletedMessage.Some? ==> i == n
      invariant deletedMessage.Some? ==> (var k := FirstOwned(messages, docID, userId);
        k.Some? && deletedMessage.value == messages[k.value])
    {
      var currentMessage := messages[i];
      if docID == Some(currentMessage.id) && currentMessage.senderId == userId {
        deletedMessage := Some(currentMessage);
        i := n - 1;
      }
      i := i + 1;
    }
  }
}
