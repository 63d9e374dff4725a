/**
 * The private conversation with one friend: sending a message (creating the
 * chat room first when there is none), editing and removing messages, the
 * re-subscription when the chat changes, and the friend's last-active line.
 *
 * Store writes and the real-time subscription are left out; the ids the store
 * assigns and the client's clock are parameters.
 */
module PrivateChat {
  import opened Common
  import ChatUtil
  import UserUtil

  /**
   * `messages.filter(x => x !== deletedMessage)`: every message but the
   * deleted one, compared by reference; undefined (`None`) removes nothing.
   */
  function WithoutMessage(messages: seq<ChatUtil.Message>, deleted: Option<ChatUtil.Message>)
    : (r: seq<ChatUtil.Message>)
    ensures |r| <= |messages|
    ensures forall i :: 0 <= i < |r| ==> r[i] in messages && Some(r[i]) != deleted
    ensures forall i :: 0 <= i < |messages| && Some(messages[i]) != deleted ==> messages[i] in r
    decreases |messages|
  {
    if messages == [] then []
    else (if Some(messages[0]) != deleted then [messages[0]] else []) + WithoutMessage(messages[1..], deleted)
  }

  /** Removing nothing keeps the list as it is. */
  lemma {:induction false} WithoutNothing(messages: seq<ChatUtil.Message>)
    ensures WithoutMessage(messages, None) == messages
    decreases |messages|
  {
    if messages != [] {
      var x, rest := messages[0], messages[1..];
      assert Some(x) != None;
      assert WithoutMessage(messages, None) == [x] + WithoutMessage(rest, None);
      WithoutNothing(rest);
      assert [x] + rest == messages;
    }
  }

  lemma WithoutCons(x: ChatUtil.Message, s: seq<ChatUtil.Message>, deleted: Option<ChatUtil.Message>)
    ensures WithoutMessage([x] + s, deleted) == (if Some(x) != deleted then [x] else []) + WithoutMessage(s, deleted)
  {
    assert ([x] + s)[0] == x;
    assert ([x] + s)[1..] == s;
  }

  /** Filtering distributes over concatenation, so the kept messages stay in their order. */
  lemma {:induction false} WithoutConcat(a: seq<ChatUtil.Message>, b: seq<ChatUtil.Message>,
                                         deleted: Option<ChatUtil.Message>)
    ensures WithoutMessage(a + b, deleted) == WithoutMessage(a, deleted) + WithoutMessage(b, deleted)
    decreases |a|
  {
    if a == [] {
      assert a + b == b;
    } else {
      var x, rest := a[0], a[1..];
      assert a == [x] + rest;
      assert a + b == [x] + (rest + b);
      WithoutCons(x, rest + b, deleted);
      WithoutCons(x, rest, deleted);
      WithoutConcat(rest, b, deleted);
      AppendAssoc(if Some(x) != deleted then [x] else [],
                  WithoutMessage(rest, deleted), WithoutMessage(b, deleted));
    }
  }

  lemma AppendAssoc(p: seq<ChatUtil.Message>, q: seq<ChatUtil.Message>, r: seq<ChatUtil.Message>)
    ensures p + (q + r) == (p + q) + r
  {
  }

  /** A single message is kept exactly when it is not the deleted one. */
  lemma WithoutSingle(m: ChatUtil.Message, deleted: Option<ChatUtil.Message>)
    ensures WithoutMessage([m], deleted) == if Some(m) != deleted then [m] else []
  {
    assert [m][1..] == [];
  }

  /**
   * `docID` is the number -1 and is never set, so no message is ever found
   * for editing or deleting.
   */
  lemma UnsetDocIdOwnsNothing(messages: seq<ChatUtil.Message>, userId: string)
    ensures ChatUtil.FirstOwned(messages, None, userId) == None
  {
  }

  /** `handleKeyDown`: Enter on a non-empty input sends. */
  predicate KeyDownSends(key: string, inputValue: string) {
    key == "Enter" && inputValue != ""
  }

  /** The conversation's state; `chat` is the parent's selected chat, which `sendMessage` sets. */
  class PrivateChatView {
    const user: User
    var friend: Option<User>
    var chat: Option<Chat>
    var messages: seq<ChatUtil.Message>
    var message: string
    /** The `docID` state: -1, which is no message's id, and never set. */
    const docID: Option<string> := None
    var isActiveNow: Option<bool>

    constructor (user: User, friend: Option<User>, chat: Option<Chat>)
      ensures this.user == user && this.friend == friend && this.chat == chat
      ensures messages == [] && message == "" && docID == None && isActiveNow == None
    {
      this.user, this.friend, this.chat := user, friend, chat;
      messages, message := [], "";
      isActiveNow := None;
    }

    /** The input's `onChange`. */
    method SetMessage(value: string)
      modifies this
      ensures message == value
      ensures messages == old(messages) && chat == old(chat) && friend == old(friend)
    {
      message := value;
    }

    /**
     * `sendMessage` at `now`: without a friend the input is cleared and nothing
     * is sent. Otherwise, when no chat is selected, a private chat with the
     * friend is created (named after them, its last message the text) and
     * handed to `setUserChatSelected`, which is the dashboard's chat selection:
     * the room becomes the chat and the friend becomes the room's `user2`, a
     * property chat records do not have, so undefined. The new message, from
     * the user, is put first and the input is cleared.
     */
    method SendMessage(now: int, newChatId: string, newMessageId: string)
      modifies this
      ensures old(friend).None? ==> message == "" && messages == old(messages) && chat == old(chat)
      ensures old(friend).Some? ==>
        chat == (if old(chat).Some? then old(chat)
                 else ChatUtil.CreateChatRoom(ChatTypePrivate, old(message), user, old(friend).value, now, newChatId))
      ensures old(friend).Some? ==> (chat.Some? && message == "" &&
        |messages| == |old(messages)| + 1 && messages[1..] == old(messages) && fresh(messages[0]) &&
        messages[0].id == newMessageId && messages[0].chatId == chat.value.id &&
        messages[0].senderId == user.id && messages[0].text == old(message) &&
        messages[0].sentAt == LocalDate(now) && messages[0].mediaUrl == "" && messages[0].messageType == "text")
      ensures old(friend).Some? && old(chat).None? ==> friend == None
      ensures old(friend).None? || old(chat).Some? ==> friend == old(friend)
    {
      var chatRoom := chat;
      if friend.None? {
        message := "";
        return;
      }
      if chatRoom.None? {
        chatRoom := ChatUtil.CreateChatRoom(ChatTypePrivate, message, user, friend.value, now, newChatId);
        chat, friend := chatRoom, None;
      }
      var newMessage := new ChatUtil.Message(newMessageId, chatRoom.value.id, user.id, message, LocalDate(now), "", "text");
      var updatedMessages := [newMessage] + messages;
      messages := updatedMessages;
      message := "";
    }

    /**
     * `handleKeyDown`: Enter on a non-empty input sends the message state and
     * clears the input; returns the input's new value.
     */
    method HandleKeyDown(key: string, inputValue: string, now: int, newChatId: string, newMessageId: string)
      returns (newInputValue: string)
      modifies this
      ensures newInputValue == if KeyDownSends(key, inputValue) then "" else inputValue
      ensures !KeyDownSends(key, inputValue) ==>
        message == old(message) && messages == old(messages) && chat == old(chat)
      ensures KeyDownSends(key, inputValue) && old(friend).Some? ==>
        |messages| == |old(messages)| + 1 && messages[1..] == old(messages) && messages[0].text == old(message)
      ensures KeyDownSends(key, inputValue) ==> message == ""
    {
      newInputValue := inputValue;
      if key == "Enter" && inputValue != "" {
        SendMessage(now, newChatId, newMessageId);
        newInputValue := "";
      }
    }

    /**
     * `editMessage`: nothing without a chat; otherwise `updateMessage` with the
     * `docID` state. That state is never set, so no message is owned: the call
     * neither throws nor edits, and the list stays as it was.
     */
    method EditMessage(now: int)
      modifies this, set m | m in messages
      ensures messages == old(messages) && message == old(message) && chat == old(chat)
      ensures forall m :: m in messages ==> m.text == old(m.text) && m.sentAt == old(m.sentAt)
    {
      if chat.None? {
        return;
      }
      var updatedMessages := ChatUtil.UpdateMessage(message, messages, docID, user.id, now);
      messages := updatedMessages.value;
    }

    /**
     * `removeMessage`: nothing without a chat; otherwise the message
     * `deleteMessage` finds for the `docID` state leaves the list. That state is
     * never set, so nothing is found and the list stays as it was.
     */
    method RemoveMessage()
      modifies this
      ensures messages == old(messages) && message == old(message) && chat == old(chat)
    {
      if chat.None? {
        return;
      }
      var deletedMessage := ChatUtil.DeleteMessage(docID, messages, user.id);
      WithoutNothing(messages);
      var updatedMessages := WithoutMessage(messages, deletedMessage);
      messages := updatedMessages;
    }

    /**
     * The effect on `[chat]`: selecting no chat clears the messages and the
     * input; a selected chat is subscribed to, and its updates arrive through
     * `OnMessagesSnapshot`.
     */
    method ChatChanged(newChat: Option<Chat>)
      modifies this
      ensures chat == newChat
      ensures newChat.None? ==> messages == [] && message == ""
      ensures newChat.Some? ==> messages == old(messages) && message == old(message)
    {
      chat := newChat;
      if newChat.None? {
        messages := [];
        message := "";
      }
    }

    /** A snapshot from the subscription replaces the messages. */
    method OnMessagesSnapshot(snapshot: seq<ChatUtil.Message>)
      requires chat.Some?
      modifies this
      ensures messages == snapshot && message == old(message) && chat == old(chat)
    {
      messages := snapshot;
    }

    /**
     * `printUserLastActive` at `nowMs`: the friend's last-active text, and the
     * active-now flag set exactly when the friend was seen in the last minute.
     */
    method PrintUserLastActive(nowMs: int) returns (lastActiveString: string)
      modifies this
      ensures lastActiveString == UserUtil.GetUserLastActive(friend, nowMs)
      ensures isActiveNow == Some(UserUtil.LastSeenSeconds(friend).Some? &&
        nowMs - 1000 * UserUtil.LastSeenSeconds(friend).value < 1000 * 60)
      ensures messages == old(messages) && message == old(message) && chat == old(chat) && friend == old(friend)
    {
      lastActiveString := UserUtil.GetUserLastActive(friend, nowMs);
      if lastActiveString == UserUtil.NowText {
        isActiveNow := Some(true);
      } else {
        isActiveNow := Some(false);
      }
    }
  }
}
