/**
 * The dashboard's chat state: the feed it receives, the visible list narrowed
 * to the selected chat type, the selected chat and its participants, and the
 * friends picked from the user's friendship links.
 *
 * React state updates are modelled as assignments to the fields of
 * `Dashboard`; the effect on `[userChats, userChatTypeSelected]` is `Render`,
 * which re-runs the visible-list update while those two differ from the
 * values the effect last ran with.
 */
module ChatDashboard {
  import opened Common
  import ChatListFilter
  import UserUtil

  // ---------------------------------------------------------------------------
  // Filtering by type
  // ---------------------------------------------------------------------------

  /** `chats.filter((chat) => chat.type === chatType)`. */
  function FilterByType(chats: seq<Chat>, chatType: string): (r: seq<Chat>)
    ensures |r| <= |chats|
    ensures forall c :: c in r <==> c in chats && c.chatType == chatType
  {
    if chats == [] then []
    else (if chats[0].chatType == chatType then [chats[0]] else []) + FilterByType(chats[1..], chatType)
  }

  /** `a` is `b` with some elements left out, the rest in their order. */
  predicate Subsequence(a: seq<Chat>, b: seq<Chat>)
    decreases |b|
  {
    if a == [] then true
    else if b == [] then false
    else if a[0] == b[0] then Subsequence(a[1..], b[1..])
    else Subsequence(a, b[1..])
  }

  /** Filtering keeps the chats it keeps in their order. */
  lemma {:induction false} FilterIsSubsequence(chats: seq<Chat>, chatType: string)
    ensures Subsequence(FilterByType(chats, chatType), chats)
    decreases |chats|
  {
    if chats != [] {
      FilterIsSubsequence(chats[1..], chatType);
      if chats[0].chatType == chatType {
        var r := FilterByType(chats, chatType);
        assert r[0] == chats[0] && r[1..] == FilterByType(chats[1..], chatType);
      } else {
        assert FilterByType(chats, chatType) == [] + FilterByType(chats[1..], chatType) == FilterByType(chats[1..], chatType);
        SubsequenceSkip(FilterByType(chats[1..], chatType), chats[0], chats[1..]);
        assert [chats[0]] + chats[1..] == chats;
      }
    }
  }

  /** A subsequence of `b` is a subsequence of `[x] + b`. */
  lemma {:induction false} SubsequenceSkip(a: seq<Chat>, x: Chat, b: seq<Chat>)
    requires Subsequence(a, b)
    ensures Subsequence(a, [x] + b)
    decreases |b|, 1
  {
    var xb := [x] + b;
    assert xb[1..] == b;
    if a != [] && a[0] == x {
      // matched against `x`: the rest of `a` is a subsequence of `b` because `a` is
      SubsequenceTail(a, b);
    }
  }

  /** Dropping the head of a subsequence keeps it a subsequence. */
  lemma {:induction false} SubsequenceTail(a: seq<Chat>, b: seq<Chat>)
    requires a != [] && Subsequence(a, b)
    ensures Subsequence(a[1..], b)
    decreases |b|, 0
  {
    if a[0] != b[0] {
      SubsequenceTail(a, b[1..]);
    }
    SubsequenceSkip(a[1..], b[0], b[1..]);
    assert [b[0]] + b[1..] == b;
  }

  /** Filtering twice by the same type is filtering once. */
  lemma {:induction false} FilterIdempotent(chats: seq<Chat>, chatType: string)
    ensures FilterByType(FilterByType(chats, chatType), chatType) == FilterByType(chats, chatType)
    decreases |chats|
  {
    if chats != [] {
      FilterIdempotent(chats[1..], chatType);
      FilterConcat(if chats[0].chatType == chatType then [chats[0]] else [],
                   FilterByType(chats[1..], chatType), chatType);
    }
  }

  /** Filtering a concatenation filters each part. */
  lemma {:induction false} FilterConcat(a: seq<Chat>, b: seq<Chat>, chatType: string)
    ensures FilterByType(a + b, chatType) == FilterByType(a, chatType) + FilterByType(b, chatType)
    decreases |a|
  {
    if a == [] {
      assert a + b == b;
    } else {
      assert (a + b)[0] == a[0];
      assert (a + b)[1..] == a[1..] + b;
      FilterConcat(a[1..], b, chatType);
    }
  }

  /** The filter keeps every chat of the type as often as it occurs and no other chat. */
  lemma {:induction false} FilterCount(chats: seq<Chat>, chatType: string, c: Chat)
    ensures multiset(FilterByType(chats, chatType))[c] == if c.chatType == chatType then multiset(chats)[c] else 0
    decreases |chats|
  {
    if chats != [] {
      FilterCount(chats[1..], chatType, c);
      assert chats == [chats[0]] + chats[1..];
    }
  }

  /** A filtered sorted feed is still sorted newest first. */
  lemma {:induction false} FilterSorted(chats: seq<Chat>, chatType: string)
    requires ChatListFilter.SortedByRecency(chats)
    ensures ChatListFilter.SortedByRecency(FilterByType(chats, chatType))
    decreases |chats|
  {
    if chats != [] {
      assert ChatListFilter.SortedByRecency(chats[1..]) by {
        forall i, j | 0 <= i < j < |chats[1..]|
          ensures ChatListFilter.Recency(chats[1..][i]) >= ChatListFilter.Recency(chats[1..][j])
        {
          assert chats[1..][i] == chats[i + 1] && chats[1..][j] == chats[j + 1];
        }
      }
      FilterSorted(chats[1..], chatType);
      if chats[0].chatType == chatType {
        var rest := FilterByType(chats[1..], chatType);
        forall z | z in rest ensures ChatListFilter.Recency(chats[0]) >= ChatListFilter.Recency(z) {
          var j :| 0 <= j < |chats[1..]| && chats[1..][j] == z;
          assert chats[j + 1] == z;
        }
        ChatListFilter.PrependSorted(chats[0], rest);
      }
    }
  }

  // ---------------------------------------------------------------------------
  // Selecting a chat type
  // ---------------------------------------------------------------------------

  /** What `handleChatTypeSelected` sets: the visible list and the selected type. */
  datatype TypeSelection = TypeSelection(visible: seq<Chat>, typeSelected: string)

  /**
   * `handleChatTypeSelected`: for "group" or "private" the chats of that type,
   * that type selected; for any other type every chat, and "all" selected.
   */
  function ChatTypeSelection(chatType: string, chats: seq<Chat>): (r: TypeSelection)
    ensures r.typeSelected in {ChatTypeAll, ChatTypeGroup, ChatTypePrivate}
    ensures chatType == ChatTypeGroup || chatType == ChatTypePrivate ==> r.typeSelected == chatType
    ensures chatType != ChatTypeGroup && chatType != ChatTypePrivate ==> r.typeSelected == ChatTypeAll && r.visible == chats
    ensures forall c :: c in r.visible <==> c in chats && (r.typeSelected == ChatTypeAll || c.chatType == r.typeSelected)
    ensures |r.visible| <= |chats|
  {
    if chatType == ChatTypeGroup || chatType == ChatTypePrivate then
      TypeSelection(FilterByType(chats, chatType), chatType)
    else
      TypeSelection(chats, ChatTypeAll)
  }

  /** The visible list is always the input with some chats left out, in order. */
  lemma VisibleIsSubsequence(chatType: string, chats: seq<Chat>)
    ensures Subsequence(ChatTypeSelection(chatType, chats).visible, chats)
  {
    if chatType == ChatTypeGroup || chatType == ChatTypePrivate {
      FilterIsSubsequence(chats, chatType);
    } else {
      SubsequenceRefl(chats);
    }
  }

  lemma {:induction false} SubsequenceRefl(s: seq<Chat>)
    ensures Subsequence(s, s)
    decreases |s|
  {
    if s != [] {
      SubsequenceRefl(s[1..]);
    }
  }

  /** Selecting a type again with the list it shows changes nothing. */
  lemma SelectionStable(chatType: string, chats: seq<Chat>)
    ensures var r := ChatTypeSelection(chatType, chats);
            ChatTypeSelection(r.typeSelected, r.visible) == r
  {
    if chatType == ChatTypeGroup || chatType == ChatTypePrivate {
      FilterIdempotent(chats, chatType);
    }
  }

  /** A chat of another type is not among the chats tagged `tag`. */
  lemma NotTagged(docs: seq<ChatListFilter.ChatDoc>, tag: string, c: Chat)
    requires c.chatType != tag
    ensures multiset(ChatListFilter.TagChats(docs, tag))[c] == 0
  {
    var r := ChatListFilter.TagChats(docs, tag);
    forall i | 0 <= i < |r| ensures r[i] != c {
    }
    assert c !in r;
  }

  /**
   * Narrowing a feed update to groups gives the group snapshot's chats, each
   * once, newest first: the private chats never show up under "group".
   */
  lemma GroupViewOfFeed(groupDocs: seq<ChatListFilter.ChatDoc>, privateDocs: seq<ChatListFilter.ChatDoc>)
    ensures var feed := ChatListFilter.FeedOnSnapshot(groupDocs, privateDocs).chats;
            var v := ChatTypeSelection(ChatTypeGroup, feed).visible;
            ChatListFilter.SortedByRecency(v) &&
            multiset(v) == multiset(ChatListFilter.TagChats(groupDocs, ChatTypeGroup))
  {
    var feed := ChatListFilter.FeedOnSnapshot(groupDocs, privateDocs).chats;
    var groups := ChatListFilter.TagChats(groupDocs, ChatTypeGroup);
    var privates := ChatListFilter.TagChats(privateDocs, ChatTypePrivate);
    var v := FilterByType(feed, ChatTypeGroup);
    FilterSorted(feed, ChatTypeGroup);
    forall c ensures multiset(v)[c] == multiset(groups)[c] {
      FilterCount(feed, ChatTypeGroup, c);
      if c.chatType == ChatTypeGroup {
        NotTagged(privateDocs, ChatTypePrivate, c);
      } else {
        NotTagged(groupDocs, ChatTypeGroup, c);
      }
    }
    assert multiset(v) == multiset(groups);
  }

  /** Two chats, the private one more recent: the feed shows it first, the group view only the group. */
  lemma FeedScenario(g: StoredChat, p: StoredChat)
    requires g.fields.lastMessageAt == 100 && p.fields.lastMessageAt == 200
    ensures var feed := ChatListFilter.FeedOnSnapshot([ChatListFilter.ChatDoc("G", g)], [ChatListFilter.ChatDoc("P", p)]).chats;
            feed == [Chat("P", ChatTypePrivate, p.fields), Chat("G", ChatTypeGroup, g.fields)] &&
            ChatTypeSelection(ChatTypeGroup, feed).visible == [Chat("G", ChatTypeGroup, g.fields)]
  {
    var gc := Chat("G", ChatTypeGroup, g.fields);
    var pc := Chat("P", ChatTypePrivate, p.fields);
    assert ChatListFilter.TagChats([ChatListFilter.ChatDoc("G", g)], ChatTypeGroup) == [gc];
    assert ChatListFilter.TagChats([ChatListFilter.ChatDoc("P", p)], ChatTypePrivate) == [pc];
    assert [gc, pc][..1] == [gc];
    assert ChatListFilter.SortByRecency([gc]) == [gc] by {
      assert [gc][..0] == [];
    }
    assert ChatListFilter.InsertByRecency(pc, [gc]) == [pc, gc];
    assert [gc] + [pc] == [gc, pc];
    var feed := [pc, gc];
    assert feed[1..] == [gc];
    assert FilterByType([gc], ChatTypeGroup) == [gc];
  }

  // ---------------------------------------------------------------------------
  // Friends, selection, and the open animation
  // ---------------------------------------------------------------------------

  /** The friend id `fetchAllFriends` looks up for a link: the end that is not the current user. */
  function FriendId(link: UserUtil.LinkData, userId: string): string {
    if link.userId1 != userId then link.userId1 else link.userId2
  }

  /** The friend ids for a list of links, in link order. */
  function FriendIds(links: seq<UserUtil.LinkData>, userId: string): (r: seq<string>)
    ensures |r| == |links|
    ensures forall i :: 0 <= i < |links| ==> r[i] == FriendId(links[i], userId)
  {
    seq(|links|, i requires 0 <= i < |links| => FriendId(links[i], userId))
  }

  /**
   * For links that touch the user, each friend id is an end of its link and is
   * the user's own id only for a link from the user to themself.
   */
  lemma FriendIsOtherEnd(links: seq<UserUtil.LinkData>, userId: string, i: int)
    requires 0 <= i < |links|
    requires links[i].userId1 == userId || links[i].userId2 == userId
    ensures var f := FriendIds(links, userId)[i];
            (f == links[i].userId1 || f == links[i].userId2) &&
            (f == userId <==> links[i].userId1 == userId && links[i].userId2 == userId) &&
            (links[i].userId1 == userId ==> f == links[i].userId2)
  {
  }

  class Dashboard {
    var userChats: seq<Chat>
    var userChatsVisible: seq<Chat>
    var userChatTypeSelected: string
    /** `None` for the initial `{}` and for `null`. */
    var userChatSelected: Option<Chat>
    /** `None` entries stand for `undefined`. */
    var participants: seq<Option<User>>
    var wasEmptyInitially: bool
    /** The ids of the friends looked up by `fetchAllFriends`. */
    var friendIds: seq<string>
    // The dependencies the visible-list effect last ran with.
    var effectChats: seq<Chat>
    var effectType: string

    /** The effect's dependencies equal the current state: it has nothing to do. */
    predicate Synced()
      reads this
    {
      effectChats == userChats && effectType == userChatTypeSelected
    }

    /** Between events: the effect has settled and one of the three types is selected. */
    predicate Valid()
      reads this
    {
      Synced() && userChatTypeSelected in {ChatTypeAll, ChatTypeGroup, ChatTypePrivate}
    }

    /** The initial state, after the mount run of the visible-list effect. */
    constructor ()
      ensures userChats == [] && userChatsVisible == [] && userChatTypeSelected == ChatTypeAll
      ensures userChatSelected == None && participants == [] && !wasEmptyInitially && friendIds == []
      ensures Valid()
    {
      userChats, userChatsVisible, userChatTypeSelected := [], [], ChatTypeAll;
      userChatSelected, participants, wasEmptyInitially, friendIds := None, [], false, [];
      effectChats, effectType := [], ChatTypeAll;
    }

    /** `handleChatTypeSelected`: sets the visible list and the selected type, nothing else. */
    method HandleChatTypeSelected(chatType: string, chats: seq<Chat>)
      modifies this
      ensures userChatsVisible == ChatTypeSelection(chatType, chats).visible
      ensures userChatTypeSelected == ChatTypeSelection(chatType, chats).typeSelected
      ensures userChats == old(userChats) && userChatSelected == old(userChatSelected)
      ensures participants == old(participants) && wasEmptyInitially == old(wasEmptyInitially)
      ensures friendIds == old(friendIds) && effectChats == old(effectChats) && effectType == old(effectType)
    {
      if chatType == ChatTypeGroup || chatType == ChatTypePrivate {
        var chatsFound := FilterByType(chats, chatType);
        userChatsVisible := chatsFound;
        userChatTypeSelected := chatType;
      } else {
        userChatsVisible := chats;
        userChatTypeSelected := ChatTypeAll;
      }
    }

    /** One run of the visible-list effect, if its dependencies changed since the last run. */
    method RunVisibleEffect()
      modifies this
      ensures old(Synced()) ==> userChatsVisible == old(userChatsVisible) && userChatTypeSelected == old(userChatTypeSelected)
      ensures !old(Synced()) ==>
        userChatsVisible == ChatTypeSelection(old(userChatTypeSelected), old(userChats)).visible &&
        userChatTypeSelected == ChatTypeSelection(old(userChatTypeSelected), old(userChats)).typeSelected &&
        effectChats == old(userChats) && effectType == old(userChatTypeSelected)
      ensures old(Synced()) ==> effectChats == old(effectChats) && effectType == old(effectType)
      ensures userChats == old(userChats) && userChatSelected == old(userChatSelected)
      ensures participants == old(participants) && wasEmptyInitially == old(wasEmptyInitially)
      ensures friendIds == old(friendIds)
    {
      if !Synced() {
        var chats, chatType := userChats, userChatTypeSelected;
        effectChats, effectType := chats, chatType;
        HandleChatTypeSelected(chatType, chats);
      }
    }

    /**
     * The renders after a state change: the effect re-runs until its
     * dependencies settle, at most twice (an unknown type becomes "all").
     * The visible list ends as the selection the current chats and type give.
     */
    method Render()
      modifies this
      ensures Synced()
      ensures old(Synced()) ==> userChatsVisible == old(userChatsVisible) && userChatTypeSelected == old(userChatTypeSelected)
      ensures !old(Synced()) ==>
        userChatsVisible == ChatTypeSelection(old(userChatTypeSelected), old(userChats)).visible &&
        userChatTypeSelected == ChatTypeSelection(old(userChatTypeSelected), old(userChats)).typeSelected
      ensures userChats == old(userChats) && userChatSelected == old(userChatSelected)
      ensures participants == old(participants) && wasEmptyInitially == old(wasEmptyInitially)
      ensures friendIds == old(friendIds)
    {
      RunVisibleEffect();
      if !Synced() {
        // only an unknown type is left unsettled; it has become "all"
        ghost var firstVisible := userChatsVisible;
        RunVisibleEffect();
        assert userChatsVisible == firstVisible;
      }
    }

    /**
     * `handleSetUserChats`, with its zero-delay timeout applied at once: an
     * empty list sets `wasEmptyInitially`, which is never cleared; the chats
     * are stored and the type selection is applied to them.
     */
    method HandleSetUserChats(chatType: string, chats: seq<Chat>)
      modifies this
      ensures wasEmptyInitially == (old(wasEmptyInitially) || chats == [])
      ensures userChats == chats
      ensures userChatsVisible == ChatTypeSelection(chatType, chats).visible
      ensures userChatTypeSelected == ChatTypeSelection(chatType, chats).typeSelected
      ensures userChatSelected == old(userChatSelected) && participants == old(participants)
      ensures friendIds == old(friendIds) && effectChats == old(effectChats) && effectType == old(effectType)
    {
      if chats == [] {
        wasEmptyInitially := true;
      }
      userChats := chats;
      HandleChatTypeSelected(chatType, chats);
    }

    /**
     * One update of the chat feed: the filter hands the merged list to
     * `handleSetUserChats` and `handleChatTypeSelected` with type "all"; after
     * the renders the whole feed is visible and "all" is selected.
     */
    method OnFeedUpdate(update: ChatListFilter.FeedUpdate)
      requires update.chatType == ChatTypeAll
      modifies this
      ensures Valid()
      ensures userChats == update.chats && userChatsVisible == update.chats
      ensures userChatTypeSelected == ChatTypeAll
      ensures wasEmptyInitially == (old(wasEmptyInitially) || update.chats == [])
      ensures userChatSelected == old(userChatSelected) && participants == old(participants)
      ensures friendIds == old(friendIds)
    {
      HandleSetUserChats(update.chatType, update.chats);
      HandleChatTypeSelected(update.chatType, update.chats);
      Render();
    }

    /**
     * Choosing an option of the chat filter: `handleChatTypeSelected` runs
     * with the type only, so the visible list is first emptied, and the effect
     * refills it from the stored chats only when the selected type changed.
     * Choosing the option already selected therefore leaves the list empty.
     */
    method SelectFilterOption(title: string)
      requires Valid()
      modifies this
      ensures Valid()
      ensures userChatTypeSelected == ChatListFilter.ChatTypeForTitle(title)
      ensures ChatListFilter.ChatTypeForTitle(title) != old(userChatTypeSelected) ==>
        userChatsVisible == ChatTypeSelection(ChatListFilter.ChatTypeForTitle(title), userChats).visible
      ensures ChatListFilter.ChatTypeForTitle(title) == old(userChatTypeSelected) ==> userChatsVisible == []
      ensures userChats == old(userChats) && userChatSelected == old(userChatSelected)
      ensures participants == old(participants) && wasEmptyInitially == old(wasEmptyInitially)
      ensures friendIds == old(friendIds)
    {
      var chatType := ChatListFilter.ChatTypeForTitle(title);
      HandleChatTypeSelected(chatType, []);
      Render();
    }

    /** `handleFriendClick`: the friend becomes the only participant and "private" is selected. */
    method HandleFriendClick(friend: Option<User>)
      requires Valid()
      modifies this
      ensures Valid()
      ensures participants == [friend] && userChatTypeSelected == ChatTypePrivate
      ensures old(userChatTypeSelected) != ChatTypePrivate ==> userChatsVisible == FilterByType(userChats, ChatTypePrivate)
      ensures old(userChatTypeSelected) == ChatTypePrivate ==> userChatsVisible == old(userChatsVisible)
      ensures userChats == old(userChats) && userChatSelected == old(userChatSelected)
      ensures wasEmptyInitially == old(wasEmptyInitially) && friendIds == old(friendIds)
    {
      participants := [friend];
      userChatTypeSelected := ChatTypePrivate;
      Render();
    }

    /**
     * `handleChatSelection`: with no chat, the given user is the only
     * participant of a new private chat; with a chat, that chat is selected
     * with its type, and its participant is `chat.user2`, a property chat
     * records do not have, so `undefined`.
     */
    method HandleChatSelection(selectedChat: Option<Chat>, user2: Option<User>)
      requires Valid()
      modifies this
      ensures Valid()
      ensures selectedChat.None? ==> participants == [user2] && userChatSelected == None
      ensures selectedChat.None? ==> userChatTypeSelected == ChatTypePrivate
      ensures selectedChat.Some? ==> participants == [None] && userChatSelected == selectedChat
      ensures selectedChat.Some? ==>
        userChatTypeSelected == ChatTypeSelection(selectedChat.value.chatType, userChats).typeSelected
      ensures IsPrivateChatSelected() <==> selectedChat.None? || selectedChat.value.chatType == ChatTypePrivate
      ensures userChats == old(userChats) && wasEmptyInitially == old(wasEmptyInitially)
      ensures friendIds == old(friendIds)
    {
      if selectedChat.None? {
        participants := [user2];
        userChatTypeSelected := ChatTypePrivate;
        userChatSelected := None;
      } else {
        participants := [None];
        userChatTypeSelected := selectedChat.value.chatType;
        userChatSelected := selectedChat;
      }
      Render();
    }

    /**
     * `isPrivateChatSelected`: the private conversation is shown when the
     * selected chat is private, or "private" is selected with one participant.
     */
    predicate IsPrivateChatSelected()
      reads this
    {
      (userChatSelected.Some? && userChatSelected.value.chatType == ChatTypePrivate) ||
      (userChatTypeSelected == ChatTypePrivate && |participants| == 1)
    }

    /** `animateChatOpen`'s guard: there are chats and none is selected. */
    predicate AnimateGuard()
      reads this
    {
      userChats != [] && userChatSelected.None?
    }

    /**
     * `animateChatOpen`: with chats and nothing selected it first selects the
     * first private chat (or, with none, an empty private conversation); the
     * result says whether the list started empty and now has chats. With no
     * private chat the selection stays empty, so the guard holds again after
     * the call.
     */
    method AnimateChatOpen() returns (animate: bool)
      requires Valid()
      modifies this
      ensures Valid()
      ensures old(AnimateGuard()) ==> (AnimateGuard() <==> FirstOfType(userChats, ChatTypePrivate).None?)
      ensures animate == (wasEmptyInitially && userChats != [])
      ensures old(userChats) != [] && old(userChatSelected).None? ==>
        var k := FirstOfType(userChats, ChatTypePrivate);
        userChatSelected == (if k.Some? then Some(userChats[k.value]) else None) &&
        IsPrivateChatSelected()
      ensures old(userChats) == [] || old(userChatSelected).Some? ==>
        userChatSelected == old(userChatSelected) && participants == old(participants) &&
        userChatTypeSelected == old(userChatTypeSelected) && userChatsVisible == old(userChatsVisible)
      ensures userChats == old(userChats) && wasEmptyInitially == old(wasEmptyInitially)
      ensures friendIds == old(friendIds)
    {
      if AnimateGuard() {
        var k := FirstOfType(userChats, ChatTypePrivate);
        var privateChat := if k.Some? then Some(userChats[k.value]) else None;
        HandleChatSelection(privateChat, None);
      }
      animate := wasEmptyInitially && userChats != [];
    }

    /**
     * `fetchAllFriends`, given the links: one friend per link, in link order,
     * the end of each link that is not the user. Looking each one up by id is
     * a store query and is not part of this model.
     */
    method FetchAllFriends(links: seq<UserUtil.LinkData>, userId: string)
      modifies this
      ensures friendIds == FriendIds(links, userId)
      ensures userChats == old(userChats) && userChatsVisible == old(userChatsVisible)
      ensures userChatTypeSelected == old(userChatTypeSelected) && userChatSelected == old(userChatSelected)
      ensures participants == old(participants) && wasEmptyInitially == old(wasEmptyInitially)
      ensures effectChats == old(effectChats) && effectType == old(effectType)
    {
      var allFriends: seq<string> := [];
      var i := 0;
      while i <= |links| - 1
        invariant 0 <= i <= |links|
        invariant allFriends == FriendIds(links[..i], userId)
      {
        var friendInfo;
        if links[i].userId1 != userId {
          friendInfo := links[i].userId1;
        } else {
          friendInfo := links[i].userId2;
        }
        allFriends := allFriends + [friendInfo];
        i := i + 1;
      }
      assert links[..|links|] == links;
      friendIds := allFriends;
    }
  }

  /** `_.find(chats, x => x.type === chatType)`, as a position: the first chat of the type. */
  function FirstOfType(chats: seq<Chat>, chatType: string): (r: Option<nat>)
    ensures r.Some? ==> r.value < |chats| && chats[r.value].chatType == chatType
    ensures r.Some? ==> forall j :: 0 <= j < r.value ==> chats[j].chatType != chatType
    ensures r.None? ==> forall c :: c in chats ==> c.chatType != chatType
    decreases |chats|
  {
    if chats == [] then None
    else if chats[0].chatType == chatType then Some(0)
    else
      var k := FirstOfType(chats[1..], chatType);
      if k.Some? then Some(k.value + 1) else None
  }
}
